/** Boot recovery: put back what was running, over every cluster and pooler of a host. */
module Daemon {
  import opened Wrappers
  import opened Lifecycle
  import opened Ids
  import opened Text

  datatype InstanceRow = InstanceRow(ordinal: nat, containerName: string, phase: InstancePhase, hostPort: nat)

  /**
    A cluster with its phase as stored, and its instances in the order of their
    ordinals. They are `readable` if each phase and role stored for them is a known one.
  */
  datatype ClusterRow = ClusterRow(name: string, phase: string, instances: seq<InstanceRow>, readable: bool)

  datatype PoolerRow = PoolerRow(name: string, containerName: string, phase: string, hostPort: nat)

  /** The containers podman knows, and whether each is running. */
  type Podman = map<string, bool>

  /**
    What happens around one run: the containers podman cannot be asked about, the
    ports other processes hold, the starts that report failure (and those of them
    that take effect all the same), the containers that exit once started, and
    those that do not become ready.
  */
  datatype Around = Around(
    unaskable: set<string>,
    held: set<nat>,
    startFails: set<string>,
    upAnyway: set<string>,
    exits: set<string>,
    notReady: set<string>
  )

  /** One container to look after, instance or pooler alike. */
  datatype Target = Target(
    name: string,
    container: string,
    clusterPhase: ClusterPhase,
    unitPhase: InstancePhase,
    port: nat,
    isPooler: bool
  )

  datatype UnitResume = UnitResume(name: string, action: ResumeAction)

  datatype ClusterResume = ClusterResume(cluster: string, instances: seq<UnitResume>, skipped: bool)

  datatype Report = Report(clusters: seq<ClusterResume>, poolers: seq<UnitResume>, dryRun: bool)

  datatype ResumeError = CorruptName(name: string) | CorruptInstance(cluster: string)

  function ProbeOf(podman: Podman, container: string): Probe {
    if container in podman then Present(podman[container]) else Absent
  }

  function DecisionOn(t: Target, podman: Podman): Decision {
    Decide(t.clusterPhase, t.unitPhase, ProbeOf(podman, t.container))
  }

  /** A real run tries to start this one. */
  predicate Attempts(t: Target, around: Around, podman: Podman) {
    t.container !in around.unaskable && DecisionOn(t, podman).Start?
  }

  /** An attempt to start it leaves it running. */
  predicate ComesUp(t: Target, around: Around) {
    && t.port !in around.held
    && if t.container in around.startFails then t.container in around.upAnyway else t.container !in around.exits
  }

  function Action(t: Target, around: Around, dryRun: bool, podman: Podman): ResumeAction {
    if t.container in around.unaskable then FailedToStart
    else match DecisionOn(t, podman)
      case Adopt => Adopted
      case Skip => Skipped
      case Missing => MissingContainer
      case Start =>
        if dryRun then WouldStart
        else if t.port in around.held || t.container in around.startFails then FailedToStart
        else if t.isPooler && t.container in around.notReady then FailedToStart
        else Started
  }

  function After(t: Target, around: Around, dryRun: bool, podman: Podman): Podman {
    if !dryRun && Attempts(t, around, podman) && t.port !in around.held
    then podman[t.container := ComesUp(t, around)]
    else podman
  }

  /** The containers after the first `n` targets. */
  function StateAt(targets: seq<Target>, n: nat, around: Around, dryRun: bool, podman: Podman): Podman
    requires n <= |targets|
  {
    if n == 0 then podman
    else After(targets[n - 1], around, dryRun, StateAt(targets, n - 1, around, dryRun, podman))
  }

  /** What is reported of target `n`. */
  function ActionAt(targets: seq<Target>, n: nat, around: Around, dryRun: bool, podman: Podman): ResumeAction
    requires n < |targets|
  {
    Action(targets[n], around, dryRun, StateAt(targets, n, around, dryRun, podman))
  }

  function Resumed(targets: seq<Target>, n: nat, around: Around, dryRun: bool, podman: Podman): seq<UnitResume>
    requires n <= |targets|
  {
    if n == 0 then []
    else
      Resumed(targets, n - 1, around, dryRun, podman)
      + [UnitResume(targets[n - 1].name, ActionAt(targets, n - 1, around, dryRun, podman))]
  }

  /** The containers after a whole run, and what it reports. */
  function Final(targets: seq<Target>, around: Around, dryRun: bool, podman: Podman): Podman {
    StateAt(targets, |targets|, around, dryRun, podman)
  }

  function Reported(targets: seq<Target>, around: Around, dryRun: bool, podman: Podman): seq<UnitResume> {
    Resumed(targets, |targets|, around, dryRun, podman)
  }

  lemma {:induction false} PrefixOfRun(a: seq<Target>, b: seq<Target>, n: nat, around: Around, dryRun: bool, podman: Podman)
    requires n <= |a|
    ensures StateAt(a + b, n, around, dryRun, podman) == StateAt(a, n, around, dryRun, podman)
    ensures Resumed(a + b, n, around, dryRun, podman) == Resumed(a, n, around, dryRun, podman)
  {
    hide Action, After;
    if n > 0 {
      PrefixOfRun(a, b, n - 1, around, dryRun, podman);
    }
  }

  lemma {:induction false} RunInParts(a: seq<Target>, b: seq<Target>, n: nat, around: Around, dryRun: bool, podman: Podman)
    requires n <= |b|
    ensures StateAt(a + b, |a| + n, around, dryRun, podman)
         == StateAt(b, n, around, dryRun, Final(a, around, dryRun, podman))
    ensures Resumed(a + b, |a| + n, around, dryRun, podman)
         == Reported(a, around, dryRun, podman) + Resumed(b, n, around, dryRun, Final(a, around, dryRun, podman))
  {
    hide Action, After;
    if n == 0 {
      PrefixOfRun(a, b, |a|, around, dryRun, podman);
    } else {
      RunInParts(a, b, n - 1, around, dryRun, podman);
      assert (a + b)[|a| + n - 1] == b[n - 1];
    }
  }

  // ---- the targets of a host ---------------------------------------

  function InstanceTarget(c: ClusterRow, row: InstanceRow): Target {
    Target(InstanceId(c.name, row.ordinal).Print(), row.containerName, ParseLenient(c.phase), row.phase, row.hostPort, false)
  }

  function PoolerTarget(p: PoolerRow): Target {
    Target(p.name, p.containerName, ParseLenient(p.phase), InstancePhase.Running, p.hostPort, true)
  }

  function InstanceTargets(c: ClusterRow): (targets: seq<Target>)
    ensures |targets| == |c.instances|
    ensures forall i :: 0 <= i < |targets| ==> targets[i] == InstanceTarget(c, c.instances[i])
  {
    seq(|c.instances|, i requires 0 <= i < |c.instances| => InstanceTarget(c, c.instances[i]))
  }

  function PoolerTargets(poolers: seq<PoolerRow>): (targets: seq<Target>)
    ensures |targets| == |poolers|
    ensures forall i :: 0 <= i < |targets| ==> targets[i] == PoolerTarget(poolers[i])
  {
    seq(|poolers|, i requires 0 <= i < |poolers| => PoolerTarget(poolers[i]))
  }

  /** The phase of a cluster can rule out all of its instances at once. */
  predicate Open(c: ClusterRow) {
    ValidName(c.name) && ParseLenient(c.phase).Resumable()
  }

  function ClusterTargets(clusters: seq<ClusterRow>, n: nat): seq<Target>
    requires n <= |clusters|
  {
    if n == 0 then []
    else
      var c := clusters[n - 1];
      ClusterTargets(clusters, n - 1) + if Open(c) then InstanceTargets(c) else []
  }

  function AllTargets(clusters: seq<ClusterRow>, poolers: seq<PoolerRow>): seq<Target> {
    ClusterTargets(clusters, |clusters|) + PoolerTargets(poolers)
  }

  /** A row whose container was started and became ready is recorded as running. */
  function Settle(row: InstanceRow, action: ResumeAction, around: Around): InstanceRow {
    if action.Started? && row.containerName !in around.notReady then row.(phase := InstancePhase.Running) else row
  }

  /** The rows of a cluster once the first `|units|` instances were looked at. */
  ghost predicate Settled(before: ClusterRow, after: ClusterRow, units: seq<UnitResume>, around: Around) {
    && after == before.(instances := after.instances) && |after.instances| == |before.instances|
    && (forall j :: 0 <= j < |before.instances| ==>
          after.instances[j]
            == if j < |units| then Settle(before.instances[j], units[j].action, around) else before.instances[j])
  }

  /** Rows that boot recovery treats alike: recording a phase never blocks or unblocks a restart. */
  ghost predicate Alike(before: ClusterRow, after: ClusterRow) {
    && after == before.(instances := after.instances) && |after.instances| == |before.instances|
    && (forall j :: 0 <= j < |before.instances| ==>
         && after.instances[j].(phase := before.instances[j].phase) == before.instances[j]
         && after.instances[j].phase.BlocksRestart() == before.instances[j].phase.BlocksRestart())
  }

  predicate NamesAreValid(clusters: seq<ClusterRow>, poolers: seq<PoolerRow>) {
    && (forall i :: 0 <= i < |clusters| ==> ValidName(clusters[i].name))
    && (forall i :: 0 <= i < |poolers| ==> ValidName(poolers[i].name))
  }

  /** The first cluster whose instances are looked at and cannot be read, or the number of clusters. */
  function FirstUnreadable(clusters: seq<ClusterRow>): (i: nat)
    ensures i <= |clusters|
    ensures forall k :: 0 <= k < i ==> Open(clusters[k]) ==> clusters[k].readable
    ensures i < |clusters| ==> Open(clusters[i]) && !clusters[i].readable
  {
    if clusters == [] || (Open(clusters[0]) && !clusters[0].readable) then 0 else 1 + FirstUnreadable(clusters[1..])
  }

  // ---- counting ----------------------------------------------------

  datatype Counts = Counts(adopted: nat, started: nat, wouldStart: nat, skipped: nat, missing: nat, failed: nat) {
    function Total(): nat {
      adopted + started + wouldStart + skipped + missing + failed
    }
  }

  function CountOne(c: Counts, action: ResumeAction): Counts {
    match action
    case Adopted => c.(adopted := c.adopted + 1)
    case Started => c.(started := c.started + 1)
    case WouldStart => c.(wouldStart := c.wouldStart + 1)
    case Skipped => c.(skipped := c.skipped + 1)
    case MissingContainer => c.(missing := c.missing + 1)
    case FailedToStart => c.(failed := c.failed + 1)
  }

  function Occurrences(units: seq<UnitResume>, action: ResumeAction): nat {
    if units == [] then 0
    else Occurrences(units[..|units| - 1], action) + if units[|units| - 1].action == action then 1 else 0
  }

  function CountUnits(units: seq<UnitResume>): Counts {
    if units == [] then Counts(0, 0, 0, 0, 0, 0)
    else CountOne(CountUnits(units[..|units| - 1]), units[|units| - 1].action)
  }

  function InstancesOf(clusters: seq<ClusterResume>): seq<UnitResume> {
    if clusters == [] then [] else InstancesOf(clusters[..|clusters| - 1]) + clusters[|clusters| - 1].instances
  }

  function Units(r: Report): seq<UnitResume> {
    InstancesOf(r.clusters) + r.poolers
  }

  function SkippedClusters(clusters: seq<ClusterResume>): nat {
    if clusters == [] then 0
    else SkippedClusters(clusters[..|clusters| - 1]) + if clusters[|clusters| - 1].skipped then 1 else 0
  }

  method CountReport(r: Report) returns (c: Counts)
    ensures c == CountUnits(Units(r)).(skipped := CountUnits(Units(r)).skipped + SkippedClusters(r.clusters))
  {
    c := Counts(0, 0, 0, 0, 0, 0);
    var units := Units(r);
    for n := 0 to |units|
      invariant c == CountUnits(units[..n])
    {
      assert units[..n + 1][..n] == units[..n];
      c := CountOne(c, units[n].action);
    }
    assert units[..|units|] == units;
    var skipped := 0;
    for n := 0 to |r.clusters|
      invariant skipped == SkippedClusters(r.clusters[..n])
    {
      assert r.clusters[..n + 1][..n] == r.clusters[..n];
      if r.clusters[n].skipped {
        skipped := skipped + 1;
      }
    }
    assert r.clusters[..|r.clusters|] == r.clusters;
    c := c.(skipped := c.skipped + skipped);
  }

  /** Each count is the number of units with that outcome, so together they are all the units. */
  lemma {:induction false} CountsAreExact(units: seq<UnitResume>)
    ensures var c := CountUnits(units);
            && c.adopted == Occurrences(units, Adopted) && c.started == Occurrences(units, Started)
            && c.wouldStart == Occurrences(units, WouldStart) && c.skipped == Occurrences(units, Skipped)
            && c.missing == Occurrences(units, MissingContainer) && c.failed == Occurrences(units, FailedToStart)
            && c.Total() == |units|
  {
    if units != [] {
      CountsAreExact(units[..|units| - 1]);
    }
  }

  // ---- the run itself ----------------------------------------------

  class Host {
    var clusters: seq<ClusterRow>
    var poolers: seq<PoolerRow>
    var podman: Podman

    constructor (clusters: seq<ClusterRow>, poolers: seq<PoolerRow>, podman: Podman)
      ensures this.clusters == clusters && this.poolers == poolers && this.podman == podman
    {
      this.clusters, this.poolers, this.podman := clusters, poolers, podman;
    }

    /** What is done about one container. Whatever goes wrong is an outcome to report. */
    method ResumeContainer(t: Target, around: Around, dryRun: bool) returns (action: ResumeAction)
      modifies `podman
      ensures podman == After(t, around, dryRun, old(podman))
      ensures action == Action(t.(isPooler := false), around, dryRun, old(podman))
    {
      if t.container in around.unaskable {
        return FailedToStart;
      }
      match DecisionOn(t, podman) {
        case Adopt => return Adopted;
        case Skip => return Skipped;
        case Missing => return MissingContainer;
        case Start =>
          if dryRun {
            return WouldStart;
          }
          if t.port in around.held {
            return FailedToStart;
          }
          podman := podman[t.container := ComesUp(t, around)];
          return if t.container in around.startFails then FailedToStart else Started;
      }
    }

    method ResumeCluster(i: nat, around: Around, dryRun: bool) returns (r: ClusterResume)
      requires i < |clusters|
      modifies `podman, `clusters
      ensures r.cluster == old(clusters)[i].name && (r.skipped <==> !Open(old(clusters)[i]))
      ensures var targets := if r.skipped then [] else InstanceTargets(old(clusters)[i]);
              && r.instances == Reported(targets, around, dryRun, old(podman))
              && podman == Final(targets, around, dryRun, old(podman))
      ensures |clusters| == |old(clusters)| && clusters == old(clusters)[i := clusters[i]]
      ensures Settled(old(clusters)[i], clusters[i], r.instances, around) && Alike(old(clusters)[i], clusters[i])
      ensures dryRun ==> clusters == old(clusters)
    {
      hide Open, Settled, Alike, Action, After, SettleAt, InstanceTarget;
      var c := clusters[i];
      SettleNone(c, around);
      r := ClusterResume(c.name, [], true);
      if !Open(c) {
        return;
      }
      var targets := InstanceTargets(c);
      ghost var now := c;
      NothingToResume(around, dryRun, podman);
      var units: seq<UnitResume> := [];
      for n := 0 to |c.instances|
        invariant units == Resumed(targets, n, around, dryRun, old(podman)) && |units| == n
        invariant podman == StateAt(targets, n, around, dryRun, old(podman))
        invariant |clusters| == |old(clusters)| && clusters == old(clusters)[i := now]
        invariant Settled(c, now, units, around) && Alike(c, now) && (dryRun ==> now == c)
      {
        SettledSoFar(c, now, units, around);
        var t := targets[n];
        var action := ResumeInstance(i, n, t, around, dryRun);
        SettleOne(c, now, units, UnitResume(t.name, action), around);
        now := SettleAt(now, n, action, around);
        units := units + [UnitResume(t.name, action)];
      }
      r := ClusterResume(c.name, units, false);
    }

    /** Resume one instance, and once it answers, record it as running. */
    method ResumeInstance(i: nat, n: nat, t: Target, around: Around, dryRun: bool) returns (action: ResumeAction)
      requires i < |clusters| && n < |clusters[i].instances| && t.container == clusters[i].instances[n].containerName
      requires !t.isPooler
      modifies `podman, `clusters
      ensures podman == After(t, around, dryRun, old(podman)) && action == Action(t, around, dryRun, old(podman))
      ensures clusters == old(clusters)[i := SettleAt(old(clusters)[i], n, action, around)]
      ensures action.Started? ==> !dryRun && !t.unitPhase.BlocksRestart()
    {
      hide Action, After;
      assert t.(isPooler := false) == t;
      StartedIsAllowed(t, around, dryRun, podman);
      action := ResumeContainer(t, around, dryRun);
      if action.Started? && t.container !in around.notReady {
        clusters := clusters[i := WithPhase(clusters[i], n, InstancePhase.Running)];
      }
    }

    /**
      Clusters first, then poolers. What the registry should not hold fails the run:
      a cluster's name before anything is done, a phase or role of an instance when its
      cluster's turn comes, and a pooler's name after the clusters.
    */
    method ResumeWith(around: Around, dryRun: bool) returns (r: Result<Report, ResumeError>)
      modifies `podman, `clusters
      ensures r.Ok? <==> NamesAreValid(old(clusters), poolers) && FirstUnreadable(old(clusters)) == |old(clusters)|
      ensures r.Err? && r.error.CorruptInstance? ==>
                && FirstUnreadable(old(clusters)) < |old(clusters)|
                && r.error.cluster == old(clusters)[FirstUnreadable(old(clusters))].name
                && podman == Final(ClusterTargets(old(clusters), FirstUnreadable(old(clusters))), around, dryRun, old(podman))
      ensures r.Ok? ==>
                && Units(r.value) == Reported(AllTargets(old(clusters), poolers), around, dryRun, old(podman))
                && podman == Final(AllTargets(old(clusters), poolers), around, dryRun, old(podman))
      ensures |clusters| == |old(clusters)| && forall i :: 0 <= i < |clusters| ==> Alike(old(clusters)[i], clusters[i])
      ensures r.Ok? ==>
                && |r.value.clusters| == |old(clusters)|
                && forall i :: 0 <= i < |old(clusters)| ==>
                     && r.value.clusters[i].cluster == old(clusters)[i].name
                     && (r.value.clusters[i].skipped <==> !ParseLenient(old(clusters)[i].phase).Resumable())
                     && Settled(old(clusters)[i], clusters[i], r.value.clusters[i].instances, around)
      ensures dryRun ==> podman == old(podman) && clusters == old(clusters)
    {
      hide ValidName, Settled, Alike, InstanceTargets, Resumed, StateAt;
      AlikeItself();
      DryRunChangesNothing(AllTargets(clusters, poolers), around, podman);
      ghost var before := clusters;
      for i := 0 to |clusters|
        invariant forall k :: 0 <= k < i ==> ValidName(clusters[k].name)
      {
        if !ValidName(clusters[i].name) {
          return Err(CorruptName(clusters[i].name));
        }
      }
      var reports := ResumeClusters(around, dryRun);
      if |reports| < |clusters| {
        DryRunChangesNothing(ClusterTargets(before, |reports|), around, old(podman));
        return Err(CorruptInstance(clusters[|reports|].name));
      }
      for i := 0 to |poolers|
        invariant forall k :: 0 <= k < i ==> ValidName(poolers[k].name)
      {
        if !ValidName(poolers[i].name) {
          DryRunChangesNothing(ClusterTargets(before, |before|), around, old(podman));
          return Err(CorruptName(poolers[i].name));
        }
      }
      ghost var done, rest := ClusterTargets(before, |before|), PoolerTargets(poolers);
      var units := ResumePoolers(around, dryRun);
      RunInParts(done, rest, |rest|, around, dryRun, old(podman));
      return Ok(Report(reports, units, dryRun));
    }

    /** Cluster by cluster, as far as their instances can be read. */
    method ResumeClusters(around: Around, dryRun: bool) returns (reports: seq<ClusterResume>)
      modifies `podman, `clusters
      ensures |reports| == FirstUnreadable(old(clusters)) && |clusters| == |old(clusters)|
      ensures InstancesOf(reports) == Reported(ClusterTargets(old(clusters), |reports|), around, dryRun, old(podman))
      ensures podman == Final(ClusterTargets(old(clusters), |reports|), around, dryRun, old(podman))
      ensures forall i :: 0 <= i < |reports| ==>
                && reports[i].cluster == old(clusters)[i].name && (reports[i].skipped <==> !Open(old(clusters)[i]))
                && Settled(old(clusters)[i], clusters[i], reports[i].instances, around)
                && Alike(old(clusters)[i], clusters[i])
      ensures forall i :: |reports| <= i < |clusters| ==> clusters[i] == old(clusters)[i]
      ensures dryRun ==> clusters == old(clusters)
    {
      hide Open, Settled, Alike, Resumed, StateAt, FirstUnreadable;
      NothingToResume(around, dryRun, podman);
      ghost var before, podman0 := clusters, podman;
      reports := [];
      for i := 0 to |clusters|
        invariant |clusters| == |before| && |reports| == i <= FirstUnreadable(before)
        invariant forall k :: i <= k < |clusters| ==> clusters[k] == before[k]
        invariant InstancesOf(reports) == Reported(ClusterTargets(before, i), around, dryRun, podman0)
        invariant podman == Final(ClusterTargets(before, i), around, dryRun, podman0)
        invariant forall k :: 0 <= k < i ==>
                    && reports[k].cluster == before[k].name && (reports[k].skipped <==> !Open(before[k]))
                    && Settled(before[k], clusters[k], reports[k].instances, around) && Alike(before[k], clusters[k])
        invariant dryRun ==> clusters == before
      {
        if Open(clusters[i]) && !clusters[i].readable {
          return;
        }
        var report := ResumeCluster(i, around, dryRun);
        ghost var targets := if report.skipped then [] else InstanceTargets(before[i]);
        RunInParts(ClusterTargets(before, i), targets, |targets|, around, dryRun, podman0);
        assert (reports + [report])[..i] == reports;
        reports := reports + [report];
      }
    }

    /** A started pooler is checked as well: it renders its configuration on every start, and may exit a second later. */
    method ResumePoolers(around: Around, dryRun: bool) returns (units: seq<UnitResume>)
      modifies `podman
      ensures units == Reported(PoolerTargets(poolers), around, dryRun, old(podman))
      ensures podman == Final(PoolerTargets(poolers), around, dryRun, old(podman))
    {
      hide After, Action;
      ghost var targets := PoolerTargets(poolers);
      units := [];
      for n := 0 to |poolers|
        invariant units == Resumed(targets, n, around, dryRun, old(podman))
        invariant podman == StateAt(targets, n, around, dryRun, old(podman))
      {
        var t := PoolerTarget(poolers[n]);
        PoolerIsChecked(t, around, dryRun, podman);
        var action := ResumeContainer(t, around, dryRun);
        if action.Started? && t.container in around.notReady {
          action := FailedToStart;
        }
        units := units + [UnitResume(t.name, action)];
      }
    }
  }

  lemma NothingToResume(around: Around, dryRun: bool, podman: Podman)
    ensures Reported([], around, dryRun, podman) == [] && Final([], around, dryRun, podman) == podman
  {
  }

  lemma AlikeItself()
    ensures forall c: ClusterRow :: Alike(c, c)
  {
  }

  function WithPhase(c: ClusterRow, n: nat, phase: InstancePhase): ClusterRow
    requires n < |c.instances|
  {
    c.(instances := c.instances[n := c.instances[n].(phase := phase)])
  }

  function SettleAt(c: ClusterRow, n: nat, action: ResumeAction, around: Around): ClusterRow
    requires n < |c.instances|
  {
    if action.Started? && c.instances[n].containerName !in around.notReady
    then WithPhase(c, n, InstancePhase.Running)
    else c
  }

  lemma SettleNone(c: ClusterRow, around: Around)
    ensures Settled(c, c, [], around) && Alike(c, c)
  {
  }

  lemma SettledSoFar(c: ClusterRow, was: ClusterRow, units: seq<UnitResume>, around: Around)
    requires Settled(c, was, units, around) && |units| < |c.instances|
    ensures |was.instances| == |c.instances| && was.instances[|units|] == c.instances[|units|]
    ensures InstanceTargets(c)[|units|].container == c.instances[|units|].containerName
    ensures InstanceTargets(c)[|units|].unitPhase == c.instances[|units|].phase
    ensures !InstanceTargets(c)[|units|].isPooler
  {
  }

  lemma StartedIsAllowed(t: Target, around: Around, dryRun: bool, podman: Podman)
    ensures Action(t, around, dryRun, podman).Started? ==> !dryRun && !t.unitPhase.BlocksRestart()
  {
  }

  lemma SettleOne(c: ClusterRow, was: ClusterRow, units: seq<UnitResume>, unit: UnitResume, around: Around)
    requires |units| < |c.instances| && Settled(c, was, units, around) && Alike(c, was)
    requires unit.action.Started? ==> !c.instances[|units|].phase.BlocksRestart()
    ensures |was.instances| == |c.instances|
    ensures var now := SettleAt(was, |units|, unit.action, around);
            Settled(c, now, units + [unit], around) && Alike(c, now) && (!unit.action.Started? ==> now == was)
  {
  }

  lemma PoolerIsChecked(t: Target, around: Around, dryRun: bool, podman: Podman)
    requires t.isPooler
    ensures var action := Action(t.(isPooler := false), around, dryRun, podman);
            Action(t, around, dryRun, podman)
              == if action.Started? && t.container in around.notReady then FailedToStart else action
  {
  }

  // ---- what a dry run says about a real one ------------------------

  lemma {:induction false} StateUnchangedDry(targets: seq<Target>, n: nat, around: Around, podman: Podman)
    requires n <= |targets|
    ensures StateAt(targets, n, around, true, podman) == podman
  {
    if n > 0 {
      StateUnchangedDry(targets, n - 1, around, podman);
    }
  }

  lemma DryRunChangesNothing(targets: seq<Target>, around: Around, podman: Podman)
    ensures Final(targets, around, true, podman) == podman
  {
    StateUnchangedDry(targets, |targets|, around, podman);
  }

  /** The dry run would start target `i`. */
  predicate WouldStartAt(targets: seq<Target>, i: nat, around: Around, podman: Podman)
    requires i < |targets|
  {
    Attempts(targets[i], around, podman)
  }

  /** A target before `n` in the same container, which the dry run would start and which comes up. */
  ghost predicate Shadowed(targets: seq<Target>, n: nat, container: string, around: Around, podman: Podman)
    requires n <= |targets|
  {
    exists i :: 0 <= i < n && targets[i].container == container && WouldStartAt(targets, i, around, podman)
             && ComesUp(targets[i], around)
  }

  /** In a real run a container is running if it was, or if an earlier target in it was started. */
  lemma {:induction false} RunningAt(targets: seq<Target>, n: nat, around: Around, podman: Podman, container: string)
    requires n <= |targets|
    ensures var now := StateAt(targets, n, around, false, podman);
            && (container in now <==> container in podman)
            && (container in podman ==>
                 (now[container] <==> podman[container] || Shadowed(targets, n, container, around, podman)))
  {
    if n > 0 {
      RunningAt(targets, n - 1, around, podman, container);
      RunningAt(targets, n - 1, around, podman, targets[n - 1].container);
      ShadowedOneMore(targets, n - 1, container, around, podman);
    }
  }

  lemma ShadowedOneMore(targets: seq<Target>, n: nat, container: string, around: Around, podman: Podman)
    requires n < |targets|
    ensures Shadowed(targets, n + 1, container, around, podman)
       <==> || Shadowed(targets, n, container, around, podman)
            || (targets[n].container == container && WouldStartAt(targets, n, around, podman) && ComesUp(targets[n], around))
  {
  }

  /** The two runs agree on target `n`: would-start for what a real run attempts, and the same answer otherwise. */
  ghost predicate Agrees(targets: seq<Target>, n: nat, around: Around, podman: Podman)
    requires n < |targets|
  {
    var state := StateAt(targets, n, around, false, podman);
    var dry := ActionAt(targets, n, around, true, podman);
    && (dry.WouldStart? <==> Attempts(targets[n], around, state))
    && (!dry.WouldStart? ==> ActionAt(targets, n, around, false, podman) == dry)
  }

  /**
    A dry run is right about a target exactly when no earlier one that it would
    start is in the same container and comes up. Then the real run finds the
    container running, and adopts where the dry run would have started.
  */
  lemma DryRunIsRightExactly(targets: seq<Target>, n: nat, around: Around, podman: Podman)
    requires n < |targets|
    ensures Agrees(targets, n, around, podman)
       <==> !(WouldStartAt(targets, n, around, podman)
              && Shadowed(targets, n, targets[n].container, around, podman))
  {
    StateUnchangedDry(targets, n, around, podman);
    RunningAt(targets, n, around, podman, targets[n].container);
  }

  /** With a container for each target, as the names are meant to give, a dry run is right about all of them. */
  lemma DryRunIsRight(targets: seq<Target>, n: nat, around: Around, podman: Podman)
    requires forall i, j :: 0 <= i < j < |targets| ==> targets[i].container != targets[j].container
    requires n < |targets|
    ensures Agrees(targets, n, around, podman)
  {
    DryRunIsRightExactly(targets, n, around, podman);
  }

  function IdOf(c: ClusterRow, row: InstanceRow): InstanceId {
    InstanceId(c.name, row.ordinal)
  }

  /** Rows named as `Ids` names them. */
  ghost predicate NamedByRule(clusters: seq<ClusterRow>, poolers: seq<PoolerRow>) {
    && (forall c, i :: 0 <= c < |clusters| && 0 <= i < |clusters[c].instances| ==>
          clusters[c].instances[i].containerName == IdOf(clusters[c], clusters[c].instances[i]).ContainerName())
    && (forall p :: 0 <= p < |poolers| ==> poolers[p].containerName == PoolerContainerName(poolers[p].name))
  }

  /** Rows the registry's keys allow, with names and ordinals it is given. */
  ghost predicate WellKeyed(clusters: seq<ClusterRow>, poolers: seq<PoolerRow>) {
    && (forall a, b :: 0 <= a < b < |clusters| ==> clusters[a].name != clusters[b].name)
    && (forall c, i, j :: 0 <= c < |clusters| && 0 <= i < j < |clusters[c].instances| ==>
          clusters[c].instances[i].ordinal != clusters[c].instances[j].ordinal)
    && (forall a, b :: 0 <= a < b < |poolers| ==> poolers[a].name != poolers[b].name)
    && (forall c, i :: 0 <= c < |clusters| && 0 <= i < |clusters[c].instances| ==>
          IdOf(clusters[c], clusters[c].instances[i]).Valid())
    && (forall p :: 0 <= p < |poolers| ==> ValidName(poolers[p].name))
  }

  /** No pooler has the one kind of name that an instance's container may have too. */
  ghost predicate NoClash(clusters: seq<ClusterRow>, poolers: seq<PoolerRow>) {
    forall p, c, i :: 0 <= p < |poolers| && 0 <= c < |clusters| && 0 <= i < |clusters[c].instances| ==>
      !Clashes(poolers[p].name, IdOf(clusters[c], clusters[c].instances[i]))
  }

  /** Which cluster and which of its rows an instance's target comes from. */
  lemma {:induction false} Origin(clusters: seq<ClusterRow>, n: nat, k: nat) returns (c: nat, i: nat)
    requires n <= |clusters| && k < |ClusterTargets(clusters, n)|
    ensures c < n && i < |clusters[c].instances| && k == |ClusterTargets(clusters, c)| + i
    ensures ClusterTargets(clusters, n)[k] == InstanceTarget(clusters[c], clusters[c].instances[i])
  {
    hide Open, InstanceTarget;
    var front := |ClusterTargets(clusters, n - 1)|;
    if k < front {
      c, i := Origin(clusters, n - 1, k);
    } else {
      c, i := n - 1, k - front;
    }
  }

  lemma InstancesDiffer(clusters: seq<ClusterRow>, poolers: seq<PoolerRow>, i: nat, j: nat)
    requires WellKeyed(clusters, poolers) && NamedByRule(clusters, poolers)
    requires i < j < |ClusterTargets(clusters, |clusters|)|
    ensures ClusterTargets(clusters, |clusters|)[i].container != ClusterTargets(clusters, |clusters|)[j].container
  {
    hide InstanceId.Valid, InstanceId.ContainerName, InstanceId.Print, ValidName;
    var a, x := Origin(clusters, |clusters|, i);
    var b, y := Origin(clusters, |clusters|, j);
    var left, right := IdOf(clusters[a], clusters[a].instances[x]), IdOf(clusters[b], clusters[b].instances[y]);
    assert left.Valid() && right.Valid();
    assert a != b || x != y;
    assert left != right;
    if left.ContainerName() == right.ContainerName() {
      NamesAreInjective(left, right);
    }
  }

  lemma PoolerDiffers(clusters: seq<ClusterRow>, poolers: seq<PoolerRow>, i: nat, p: nat)
    requires WellKeyed(clusters, poolers) && NamedByRule(clusters, poolers) && NoClash(clusters, poolers)
    requires i < |ClusterTargets(clusters, |clusters|)| && p < |poolers|
    ensures ClusterTargets(clusters, |clusters|)[i].container != poolers[p].containerName
  {
    hide InstanceId.Valid, InstanceId.ContainerName, InstanceId.Print, ValidName, Clashes, PoolerContainerName;
    var c, x := Origin(clusters, |clusters|, i);
    var id := IdOf(clusters[c], clusters[c].instances[x]);
    assert id.Valid() && ValidName(poolers[p].name);
    PoolerClashIsExact(poolers[p].name, id);
  }

  lemma PoolersDiffer(a: string, b: string)
    ensures PoolerContainerName(a) == PoolerContainerName(b) ==> a == b
  {
    assert PoolerContainerName(a)[13..] == a && PoolerContainerName(b)[13..] == b;
  }

  /** A host whose names follow the rule, with no pooler called as in `Clashes`: a dry run is right about every unit. */
  lemma DryRunIsRightOnAHost(clusters: seq<ClusterRow>, poolers: seq<PoolerRow>, n: nat, around: Around, podman: Podman)
    requires WellKeyed(clusters, poolers) && NamedByRule(clusters, poolers) && NoClash(clusters, poolers)
    requires n < |AllTargets(clusters, poolers)|
    ensures Agrees(AllTargets(clusters, poolers), n, around, podman)
  {
    hide PoolerContainerName, ClusterTargets, ValidName, InstanceId.ContainerName, InstanceId.Print, NoClash, Agrees;
    var targets, first := AllTargets(clusters, poolers), |ClusterTargets(clusters, |clusters|)|;
    forall i, j | 0 <= i < j < |targets| ensures targets[i].container != targets[j].container {
      if j < first {
        InstancesDiffer(clusters, poolers, i, j);
      } else if i < first {
        PoolerDiffers(clusters, poolers, i, j - first);
      } else {
        PoolersDiffer(poolers[i - first].name, poolers[j - first].name);
      }
    }
    DryRunIsRight(targets, n, around, podman);
  }

  /**
    The names are not always distinct: with a cluster `pooler-a` and a pooler `a-1`,
    both stopped and due to be started, the dry run is wrong about the pooler.
  */
  lemma DryRunCanBeWrong() returns (clusters: seq<ClusterRow>, poolers: seq<PoolerRow>, around: Around, podman: Podman)
    ensures NamedByRule(clusters, poolers) && NamesAreValid(clusters, poolers)
    ensures |AllTargets(clusters, poolers)| == 2 && !Agrees(AllTargets(clusters, poolers), 1, around, podman)
  {
    hide ValidName, PoolerContainerName, InstanceId.ContainerName, InstanceId.Print, ParseLenient, Agrees;
    OneContainerTwoNames();
    var container := PoolerContainerName("a-1");
    var row := InstanceRow(1, container, InstancePhase.Running, 5433);
    var cluster, pooler := ClusterRow("pooler-a", "running", [row], true), PoolerRow("a-1", container, "running", 5434);
    clusters, poolers := [cluster], [pooler];
    around := Around({}, {}, {}, {}, {}, {});
    podman := map[container := false];
    RunningIsResumable();
    var targets := AllTargets(clusters, poolers);
    assert ClusterTargets(clusters, 1) == ClusterTargets(clusters, 0) + InstanceTargets(cluster);
    assert targets == [InstanceTarget(cluster, row), PoolerTarget(pooler)];
    assert WouldStartAt(targets, 0, around, podman) && ComesUp(targets[0], around);
    assert Shadowed(targets, 1, targets[1].container, around, podman);
    DryRunIsRightExactly(targets, 1, around, podman);
  }

  lemma RunningIsResumable()
    ensures ParseLenient("running").Resumable()
  {
  }

  lemma OneContainerTwoNames()
    ensures ValidName("pooler-a") && ValidName("a-1")
    ensures PoolerContainerName("a-1") == InstanceId("pooler-a", 1).ContainerName()
  {
    hide InstanceId.ContainerName, PoolerContainerName;
    assert "pooler-a"[..7] == "pooler-" && "pooler-a"[7..] == "a";
    assert Digits(1) == "1";
    PoolerClashIsExact("a-1", InstanceId("pooler-a", 1));
  }

  // ---- running it again --------------------------------------------

  /** Targets that boot recovery treats alike. */
  predicate SameTarget(a: Target, b: Target) {
    a.(unitPhase := b.unitPhase) == b && a.unitPhase.BlocksRestart() == b.unitPhase.BlocksRestart()
  }

  /** The first real run failed nowhere, and what it started is up. */
  ghost predicate AllCameUp(targets: seq<Target>, around: Around, podman: Podman) {
    forall i :: 0 <= i < |targets| ==>
      var action := ActionAt(targets, i, around, false, podman);
      !action.FailedToStart? && (action.Started? ==> ComesUp(targets[i], around))
  }

  lemma NothingLeftToStart(targets: seq<Target>, n: nat, around: Around, podman: Podman)
    requires n < |targets| && AllCameUp(targets, around, podman)
    ensures !DecisionOn(targets[n], Final(targets, around, false, podman)).Start?
  {
    hide ComesUp;
    var t := targets[n];
    RunningAt(targets, n, around, podman, t.container);
    RunningAt(targets, |targets|, around, podman, t.container);
    if Attempts(t, around, StateAt(targets, n, around, false, podman)) {
      assert ActionAt(targets, n, around, false, podman).Started?;
      assert WouldStartAt(targets, n, around, podman);
    }
    assert Shadowed(targets, n, t.container, around, podman) ==> Shadowed(targets, |targets|, t.container, around, podman);
  }

  /**
    A second real run after one that failed nowhere, and whose starts all came up,
    starts nothing and changes nothing: not even where podman could not be asked
    this time, or a port is taken now.
  */
  lemma {:induction false} SecondRunStartsNothing(targets: seq<Target>, again: seq<Target>, n: nat,
                                                  around: Around, later: Around, podman: Podman)
    requires |again| == |targets| && forall i :: 0 <= i < |targets| ==> SameTarget(targets[i], again[i])
    requires AllCameUp(targets, around, podman) && n <= |again|
    ensures StateAt(again, n, later, false, Final(targets, around, false, podman)) == Final(targets, around, false, podman)
    ensures n < |again| ==> !Attempts(again[n], later, Final(targets, around, false, podman))
  {
    hide AllCameUp, Final;
    if n < |again| {
      NothingLeftToStart(targets, n, around, podman);
    }
    if n > 0 {
      SecondRunStartsNothing(targets, again, n - 1, around, later, podman);
    }
  }

  /** The rows a run leaves are alike those it found, so their targets are the same. */
  lemma {:induction false} AlikeTargets(before: seq<ClusterRow>, after: seq<ClusterRow>, n: nat)
    requires |before| == |after| && forall i :: 0 <= i < |before| ==> Alike(before[i], after[i])
    requires n <= |before|
    ensures |ClusterTargets(before, n)| == |ClusterTargets(after, n)|
    ensures forall i :: 0 <= i < |ClusterTargets(before, n)| ==>
              SameTarget(ClusterTargets(before, n)[i], ClusterTargets(after, n)[i])
  {
    hide ValidName, ParseLenient, InstanceId.Print;
    if n > 0 {
      AlikeTargets(before, after, n - 1);
      assert Alike(before[n - 1], after[n - 1]);
    }
  }

  /** The same for a host: the rows the first run leaves are those the second one reads. */
  lemma SecondResumeStartsNothing(before: seq<ClusterRow>, after: seq<ClusterRow>, poolers: seq<PoolerRow>,
                                  around: Around, later: Around, podman: Podman)
    requires |before| == |after| && forall i :: 0 <= i < |before| ==> Alike(before[i], after[i])
    requires AllCameUp(AllTargets(before, poolers), around, podman)
    ensures var settled := Final(AllTargets(before, poolers), around, false, podman);
            && Final(AllTargets(after, poolers), later, false, settled) == settled
            && forall n :: 0 <= n < |AllTargets(after, poolers)| ==>
                 !Attempts(AllTargets(after, poolers)[n], later, StateAt(AllTargets(after, poolers), n, later, false, settled))
  {
    hide AllCameUp, Attempts, StateAt, Alike;
    AlikeTargets(before, after, |before|);
    var targets, again := AllTargets(before, poolers), AllTargets(after, poolers);
    var settled := Final(targets, around, false, podman);
    SecondRunStartsNothing(targets, again, |again|, around, later, podman);
    forall n | 0 <= n < |again| ensures !Attempts(again[n], later, StateAt(again, n, later, false, settled)) {
      SecondRunStartsNothing(targets, again, n, around, later, podman);
    }
  }
}
