/**
  What survives a killed process: the registry rows, the instance container and
  the volume of one cluster, and the single writes that may change them.

  Every write carries the condition under which the control plane may make it.
  This module proves that any sequence of such writes, cut anywhere, is safe;
  module `ControlPlane` proves that its programs make no other writes.
*/
module Protocol {
  import opened Wrappers
  import opened Lifecycle
  import opened Versions

  /** An image ID names one image, so it fixes the PostgreSQL version inside. */
  datatype Image = Image(digest: string, version: Version)

  /**
    A manifest, split by where each part ends up: `imageName` belongs to the
    container, `agentSpec` is baked into its environment, and `rest` (uid, gid,
    secret mounts, storage size) is used at create time or not at all.
  */
  datatype Manifest = Manifest(imageName: string, agentSpec: string, rest: string)

  datatype Container = Container(running: bool, image: Image, agentSpec: string, rest: string)

  datatype Volume = NoVolume | Empty | Data(version: Version)

  /**
    The `clusters` row. `resolved` is no column: it is the image that
    `manifest.imageName` named when the phase last became `Running`, kept so
    that it can be stated which image the container of a running cluster has.
  */
  datatype ClusterRow = ClusterRow(manifest: Manifest, phase: ClusterPhase, resolved: Image)

  datatype World = World(
    cluster: Option<ClusterRow>,
    instance: Option<InstancePhase>,
    container: Option<Container>,
    volume: Volume
  ) {
    predicate InPhase(phase: ClusterPhase) {
      cluster.Some? && cluster.value.phase == phase
    }

    /** The container's image can read whatever the volume holds. */
    predicate Readable(image: Image) {
      volume.Data? ==> volume.version == image.version
    }

    /** The container is the one the stored manifest describes. */
    predicate ContainerMatches(image: Image) {
      && cluster.Some? && container.Some?
      && container.value.agentSpec == cluster.value.manifest.agentSpec
      && container.value.image == image
    }
  }

  /** One write to durable state, atomic with respect to a kill. */
  datatype Step =
    | PutCluster(manifest: Manifest, phase: ClusterPhase)
    | SetPhase(phase: ClusterPhase, resolved: Image)
    | DropCluster
    | PutInstance(instance: InstancePhase)
    | CreateVolume
    | RemoveVolume
    | CreateContainer(image: Image, agentSpec: string, rest: string)
    | StartContainer
    | StopContainer
    | RemoveContainer
    | PgUpgrade(to: Version)
    | LoseRegistry

  function Do(w: World, s: Step): World {
    match s
    case PutCluster(m, phase) =>
      var resolved := if w.cluster.Some? then w.cluster.value.resolved else Image("", Major(18, 0));
      w.(cluster := Some(ClusterRow(m, phase, resolved)))
    case SetPhase(phase, resolved) =>
      if w.cluster.None? then w
      else w.(cluster := Some(w.cluster.value.(phase := phase, resolved := resolved)))
    case DropCluster => w.(cluster := None, instance := None)
    case PutInstance(phase) => w.(instance := Some(phase))
    case CreateVolume => if w.volume.NoVolume? then w.(volume := Empty) else w
    case RemoveVolume => w.(volume := NoVolume)
    case CreateContainer(image, agentSpec, rest) =>
      w.(container := Some(Container(false, image, agentSpec, rest)))
    case StartContainer =>
      if w.container.None? then w
      else
        // The agent bootstraps an empty volume on first start.
        var c := w.container.value;
        w.(container := Some(c.(running := true)),
           volume := if w.volume.Empty? then Data(c.image.version) else w.volume)
    case StopContainer =>
      if w.container.None? then w else w.(container := Some(w.container.value.(running := false)))
    case RemoveContainer => w.(container := None)
    case PgUpgrade(to) => w.(volume := Data(to))
    case LoseRegistry => w.(cluster := None, instance := None)
  }

  /** When a write may be made. */
  predicate Enabled(w: World, s: Step) {
    match s
    case PutCluster(_, phase) => !phase.Running?
    case SetPhase(phase, resolved) => phase.Running? ==> w.ContainerMatches(resolved)
    case PutInstance(_) => w.cluster.Some?
    case RemoveVolume => w.container.None?
    case CreateContainer(image, _, _) =>
      w.container.None? && !w.volume.NoVolume? && w.Readable(image) && !w.InPhase(ClusterPhase.Running)
    case PgUpgrade(to) =>
      && w.container.None? && w.InPhase(Upgrading)
      && w.volume.Data? && Older(w.volume.version, to)
    case _ => true
  }

  /** The durable state after a sequence of writes. */
  function Exec(w: World, steps: seq<Step>): World {
    if steps == [] then w else Do(Exec(w, steps[..|steps| - 1]), steps[|steps| - 1])
  }

  /** Each write was made in a state that allowed it. */
  predicate Legal(w: World, steps: seq<Step>) {
    steps == [] ||
    (var front := steps[..|steps| - 1]; Legal(w, front) && Enabled(Exec(w, front), steps[|steps| - 1]))
  }

  /**
    The invariant of every reachable state: an existing container comes from an
    image that reads the data on disk, and a cluster recorded as running has no
    container but the one its stored manifest describes.
  */
  ghost predicate Safe(w: World) {
    && (w.container.Some? ==>
      && !w.volume.NoVolume?
      && w.Readable(w.container.value.image)
      && (w.container.value.running ==> w.volume.Data?)
      && (w.InPhase(ClusterPhase.Running) ==> w.ContainerMatches(w.cluster.value.resolved)))
    && (w.instance.Some? ==> w.cluster.Some?)
  }

  lemma StepKeepsSafe(w: World, s: Step)
    requires Safe(w) && Enabled(w, s)
    ensures Safe(Do(w, s))
  {
  }

  lemma Append(w: World, steps: seq<Step>, s: Step)
    requires Legal(w, steps) && Enabled(Exec(w, steps), s)
    ensures Exec(w, steps + [s]) == Do(Exec(w, steps), s)
    ensures Legal(w, steps + [s])
  {
    assert (steps + [s])[..|steps|] == steps;
  }

  /** Every state a run passes through is safe: a kill may fall after any write. */
  lemma {:induction false} EveryPrefixIsSafe(w: World, steps: seq<Step>, i: nat)
    requires Safe(w) && Legal(w, steps) && i <= |steps|
    ensures Legal(w, steps[..i]) && Safe(Exec(w, steps[..i]))
    decreases |steps|
  {
    if steps == [] {
      assert steps[..i] == steps;
    } else {
      var front := steps[..|steps| - 1];
      if i < |steps| {
        EveryPrefixIsSafe(w, front, i);
        assert front[..i] == steps[..i];
      } else {
        EveryPrefixIsSafe(w, front, |front|);
        assert front[..|front|] == front && steps[..i] == steps;
        StepKeepsSafe(Exec(w, front), steps[|front|]);
      }
    }
  }

  lemma StepAt(w: World, steps: seq<Step>, i: nat)
    requires Safe(w) && Legal(w, steps) && i < |steps|
    ensures var before := Exec(w, steps[..i]);
            Safe(before) && Enabled(before, steps[i]) && Exec(w, steps[..i + 1]) == Do(before, steps[i])
  {
    EveryPrefixIsSafe(w, steps, i);
    EveryPrefixIsSafe(w, steps, i + 1);
    assert steps[..i + 1][..i] == steps[..i];
  }

  /**
    No start site ever starts a server on data it cannot read: at every start in
    any run there is a container, and the data, if any, is of its version.
  */
  lemma NoServerStartsOnUnreadableData(w: World, steps: seq<Step>, i: nat)
    requires Safe(w) && Legal(w, steps) && i < |steps|
    requires steps[i].StartContainer? && Exec(w, steps[..i]).container.Some?
    ensures var before := Exec(w, steps[..i]);
            before.volume.Empty? || before.volume == Data(before.container.value.image.version)
  {
    EveryPrefixIsSafe(w, steps, i);
  }

  /**
    Boot recovery makes no divergence check and needs none: whenever its gate is
    open, the container it would start is the one the stored manifest describes.
  */
  lemma ResumeStartsOnlyWhatTheManifestDescribes(w: World, steps: seq<Step>, i: nat)
    requires Safe(w) && Legal(w, steps) && i <= |steps|
    ensures var now := Exec(w, steps[..i]);
            now.container.Some? && now.cluster.Some? && now.cluster.value.phase.Resumable() ==>
              && now.container.value.agentSpec == now.cluster.value.manifest.agentSpec
              && now.container.value.image == now.cluster.value.resolved
              && now.Readable(now.container.value.image)
  {
    EveryPrefixIsSafe(w, steps, i);
  }

  predicate NotNewer(a: Version, b: Version) {
    a == b || Older(a, b)
  }

  /**
    While the volume is not removed, its data never goes away and its version
    never goes back; and it is a different version only if a `PgUpgrade` write
    lies in between.
  */
  lemma {:induction false} VersionsOnlyClimb(w: World, steps: seq<Step>, i: nat, j: nat)
    requires Safe(w) && Legal(w, steps) && i <= j <= |steps|
    requires Exec(w, steps[..i]).volume.Data?
    requires forall k :: i <= k < j ==> !steps[k].RemoveVolume?
    ensures Exec(w, steps[..j]).volume.Data?
    ensures NotNewer(Exec(w, steps[..i]).volume.version, Exec(w, steps[..j]).volume.version)
    ensures Exec(w, steps[..i]).volume == Exec(w, steps[..j]).volume
       <==> forall k :: i <= k < j ==> !steps[k].PgUpgrade?
    decreases j
  {
    if i < j {
      VersionsOnlyClimb(w, steps, i, j - 1);
      StepAt(w, steps, j - 1);
    }
  }
}
