/**
  The programs that move one cluster between states: apply, recreate, upgrade,
  delete and boot recovery, over the durable state of module `Protocol`.

  A process can be killed between any two writes. Each call to the outside takes
  the next entry of `script`; once the script is used up the process is dead and
  nothing it does has any effect. A program run over every script is therefore
  run with a kill at every point, and with every pattern of failing calls.
*/
module ControlPlane {
  import opened Wrappers
  import opened Text
  import opened Lifecycle
  import opened Versions
  import opened Protocol
  import opened Poolers
  import opened Scripts

  /** What was asked of podman and of the poolers, in order. */
  datatype Act =
    | Asked(step: Step)
    | AskedReady
    | Sent(verb: Verb, pooler: string)

  datatype Verb = Pause | Resume | Reconnect

  function Sends(verb: Verb, poolers: seq<Pooler>): seq<Act> {
    if poolers == [] then []
    else Sends(verb, poolers[..|poolers| - 1]) + [Sent(verb, poolers[|poolers| - 1].name)]
  }

  /** Each pooler in turn: recycle its backends, then let its clients go. */
  function Releases(poolers: seq<Pooler>): seq<Act> {
    if poolers == [] then []
    else
      var last := poolers[|poolers| - 1].name;
      Releases(poolers[..|poolers| - 1]) + [Sent(Reconnect, last), Sent(Resume, last)]
  }

  /** A hold given up at pooler `k`: pauses up to it, and a resume for each one before it. */
  function GivenUp(poolers: seq<Pooler>, k: nat): seq<Act>
    requires k < |poolers|
  {
    Sends(Pause, poolers[..k + 1]) + Sends(Resume, poolers[..k])
  }

  function Fronting(poolers: seq<Pooler>, cluster: string): seq<Pooler> {
    if poolers == [] then []
    else if PoolsFor(poolers[0].pools, cluster) != [] then [poolers[0]] + Fronting(poolers[1..], cluster)
    else Fronting(poolers[1..], cluster)
  }

  /** The paused flags of one cluster's pools on one pooler. */
  function FlagsOf(pooler: Pooler, cluster: string): set<(string, string)> {
    set n | n in PoolsFor(pooler.pools, cluster) :: (pooler.name, n)
  }

  /** The flags one verb gets to before it ends: a failed one stops after some of the pools. */
  function Reached(pooler: Pooler, cluster: string, outcome: Outcome): (flags: set<(string, string)>)
    ensures flags <= FlagsOf(pooler, cluster)
    ensures outcome.Done? ==> flags == FlagsOf(pooler, cluster)
    ensures PoolsFor(pooler.pools, cluster) != [] ==> (flags == {} <==> outcome == Partly(0))
    ensures outcome == Partly(0) ==> flags == {}
  {
    var pools := PoolsFor(pooler.pools, cluster);
    var reached := if outcome.Done? || outcome.units > |pools| then pools else pools[..outcome.units];
    var flags := set n | n in reached :: (pooler.name, n);
    assert reached != [] ==> (pooler.name, reached[0]) in flags;
    flags
  }

  function Flags(poolers: seq<Pooler>, cluster: string): set<(string, string)> {
    if poolers == [] then {}
    else Flags(poolers[..|poolers| - 1], cluster) + FlagsOf(poolers[|poolers| - 1], cluster)
  }

  /** The flags left when each pooler is sent resume, the first at entry `i`, whether or not some fail. */
  function AfterResumes(paused: set<(string, string)>, poolers: seq<Pooler>, cluster: string, script: seq<Outcome>,
                        i: nat): set<(string, string)>
  {
    if poolers == [] then paused
    else
      var last := |poolers| - 1;
      AfterResumes(paused, poolers[..last], cluster, script, i) - Reached(poolers[last], cluster, OutcomeAt(script, i + last))
  }

  /** The flags left by a hold whose pauses take entries from `i` on, given up at pooler `at`. */
  function LeftPaused(paused: set<(string, string)>, holding: seq<Pooler>, cluster: string, script: seq<Outcome>,
                      i: nat, at: nat): set<(string, string)>
    requires at < |holding|
  {
    AfterResumes(paused + Flags(holding[..at], cluster) + Reached(holding[at], cluster, OutcomeAt(script, i + at)),
                 holding[..at], cluster, script, i + at + 1)
  }

  lemma {:induction false} AllResumed(paused: set<(string, string)>, poolers: seq<Pooler>, cluster: string,
                                      script: seq<Outcome>, i: nat)
    requires AllDone(script, i, |poolers|)
    ensures AfterResumes(paused, poolers, cluster, script, i) == paused - Flags(poolers, cluster)
  {
    if poolers != [] {
      var last := |poolers| - 1;
      AllResumed(paused, poolers[..last], cluster, script, i);
      assert Fine(script, i + last);
    }
  }

  lemma {:induction false} ResumesFurther(paused: set<(string, string)>, poolers: seq<Pooler>, cluster: string,
                                          script: seq<Outcome>, n: nat, i: nat)
    ensures AfterResumes(paused, poolers, cluster, From(script, n), i) == AfterResumes(paused, poolers, cluster, script, n + i)
  {
    if poolers != [] {
      ResumesFurther(paused, poolers[..|poolers| - 1], cluster, script, n, i);
      FineFurther(script, n, i + |poolers| - 1);
    }
  }

  lemma LeftOffsets(paused: set<(string, string)>, holding: seq<Pooler>, cluster: string, script: seq<Outcome>,
                    n: nat, i: nat, at: nat)
    requires at < |holding|
    ensures LeftPaused(paused, holding, cluster, From(script, n), i, at) == LeftPaused(paused, holding, cluster, script, n + i, at)
  {
    hide AfterResumes, From, OutcomeAt, Reached, Flags;
    FineFurther(script, n, i + at);
    ResumesFurther(paused + Flags(holding[..at], cluster) + Reached(holding[at], cluster, OutcomeAt(script, n + i + at)),
                   holding[..at], cluster, script, n, i + at + 1);
  }

  lemma {:induction false} FlagsGrow(poolers: seq<Pooler>, cluster: string, i: nat)
    requires i < |poolers|
    ensures FlagsOf(poolers[i], cluster) <= Flags(poolers, cluster)
  {
    var last := |poolers| - 1;
    if i < last {
      FlagsGrow(poolers[..last], cluster, i);
    }
  }

  lemma OneMore(verb: Verb, poolers: seq<Pooler>, cluster: string, i: nat)
    requires i < |poolers|
    ensures poolers[..i + 1] == poolers[..i] + [poolers[i]]
    ensures Sends(verb, poolers[..i + 1]) == Sends(verb, poolers[..i]) + [Sent(verb, poolers[i].name)]
    ensures Releases(poolers[..i + 1])
         == Releases(poolers[..i]) + [Sent(Reconnect, poolers[i].name), Sent(Resume, poolers[i].name)]
    ensures Flags(poolers[..i + 1], cluster) == Flags(poolers[..i], cluster) + FlagsOf(poolers[i], cluster)
  {
    assert poolers[..i + 1][..i] == poolers[..i];
  }

  // ---- how the programs end ----------------------------------------

  datatype Verdict = Compatible | Incompatible(newer: bool) | Unanswered

  datatype Failure = Diverged | CallFailed

  datatype ApplyEnd = Applied | Refused(verdict: Verdict) | Failed(why: Failure)

  /** What a running container was created from is not what the manifest now asks for. */
  predicate Differs(c: Container, manifest: Manifest, image: Image) {
    c.agentSpec != manifest.agentSpec || c.image != image
  }

  /** The `rest` a container has after an apply: one that is adopted or merely started keeps its own. */
  function RestAfter(before: World, manifest: Manifest, image: Image): string {
    if before.container.Some? && !Differs(before.container.value, manifest, image)
    then before.container.value.rest
    else manifest.rest
  }

  function ProbeOf(w: World): Probe {
    if w.container.None? then Absent else Present(w.container.value.running)
  }

  predicate ServerUp(w: World) {
    w.container.Some? && w.container.value.running
  }

  predicate Matches(w: World, manifest: Manifest, resolve: string -> Image) {
    w.container.Some? && !Differs(w.container.value, manifest, resolve(manifest.imageName))
  }

  /** The cluster is recorded as running this manifest, and a server made from it is up on data it can read. */
  ghost predicate Converged(w: World, manifest: Manifest, image: Image) {
    && w.InPhase(ClusterPhase.Running) && w.cluster.value.manifest == manifest && w.cluster.value.resolved == image
    && ServerUp(w) && !Differs(w.container.value, manifest, image)
    && w.volume == Data(image.version)
  }

  // ---- which calls have to succeed ---------------------------------

  /** What an apply does with the container it finds. */
  datatype Way = Keep | Restart | Replace(occupied: bool) | Recreate | Diverge

  function WayOf(w: World, manifest: Manifest, image: Image, recreate: bool): Way {
    if w.container.None? then Replace(false)
    else if !Differs(w.container.value, manifest, image) then (if w.container.value.running then Keep else Restart)
    else if !w.container.value.running then Replace(true)
    else if recreate then Recreate
    else Diverge
  }

  /** How many calls that takes, with `h` poolers in front. */
  function WayCalls(way: Way, h: nat): nat {
    match way
    case Keep => 0
    case Restart => 1
    case Replace(occupied) => if occupied then 4 else 3
    case Recreate => 3 * h + 6
    case Diverge => 0
  }

  /**
    A recreate, from entry `i` on: `h` pauses, a stop whose outcome does not matter,
    four calls that do, an instance row (if there is one), and two calls for each pooler.
  */
  predicate RecreateWorks(script: seq<Outcome>, i: nat, h: nat, known: bool) {
    && AllDone(script, i, h)
    && AllDone(script, i + h + 1, 4)
    && AllDone(script, i + h + (if known then 6 else 5), 2 * h)
  }

  predicate WayWorks(script: seq<Outcome>, i: nat, way: Way, h: nat) {
    match way
    case Keep => true
    case Restart => Fine(script, i)
    case Replace(_) => AllDone(script, i, WayCalls(way, h))
    case Recreate => RecreateWorks(script, i, h, true)
    case Diverge => false
  }

  /** The recorded half of an apply, from entry `i` on: registry writes are entries too, but cannot fail. */
  predicate RecordedWorks(script: seq<Outcome>, i: nat, way: Way, h: nat, wait: bool) {
    && Fine(script, i) && Fine(script, i + 1) && Fine(script, i + 3)
    && WayWorks(script, i + 4, way, h)
    && (wait ==> Fine(script, i + 5 + WayCalls(way, h)))
  }

  function RecordedCalls(way: Way, h: nat, wait: bool): nat {
    5 + WayCalls(way, h) + if wait then 2 else 0
  }

  /** The questions asked before an image is found to be compatible or not. */
  function Probes(w: World, image: Image): nat {
    if w.volume.NoVolume? then 1
    else if w.container.Some? && w.container.value.running && w.container.value.image == image then 2
    else 3
  }

  /** An apply reaches its end exactly if these hold. */
  predicate ApplyWorks(script: seq<Outcome>, w: World, manifest: Manifest, image: Image, recreate: bool, wait: bool, h: nat) {
    var n := Probes(w, image);
    && Fine(script, 0) && AllDone(script, 1, n) && w.Readable(image)
    && RecordedWorks(script, n + 2, WayOf(w, manifest, image, recreate), h, wait)
  }

  function ApplyCalls(w: World, manifest: Manifest, image: Image, recreate: bool, wait: bool, h: nat): nat {
    Probes(w, image) + 3 + RecordedCalls(WayOf(w, manifest, image, recreate), h, wait)
  }

  /** Starting an instance inside a window, from entry `i` on; `occupied` if a container holds its name. */
  predicate StartsAt(script: seq<Outcome>, i: nat, known: bool, occupied: bool) {
    known && AllDone(script, i, 2) && if occupied then AllDone(script, i + 3, 3) else AllDone(script, i + 2, 2)
  }

  function StartCalls(occupied: bool): nat {
    if occupied then 7 else 5
  }

  /** And having it answer: the entry before that is the instance's row. */
  predicate AnswersAt(script: seq<Outcome>, i: nat, known: bool, occupied: bool) {
    StartsAt(script, i, known, occupied) && Fine(script, i + StartCalls(occupied))
  }

  /** Of the four calls of the job, the first that fails. */
  function FirstFailure(script: seq<Outcome>, i: nat): nat {
    if !Fine(script, i) then 0 else if !Fine(script, i + 1) then 1 else if !Fine(script, i + 2) then 2 else 3
  }

  /** A failed job leaves the old container in place until the third call, which removes it, takes effect. */
  predicate StillThere(script: seq<Outcome>, i: nat) {
    !Fine(script, i) || !Fine(script, i + 1) || OutcomeAt(script, i + 2) == Partly(0)
  }

  /** Letting clients go after a rollback: the server need not answer, but if it does, that is recorded first. */
  predicate LetGoAt(script: seq<Outcome>, i: nat, h: nat) {
    AllDone(script, i + (if Fine(script, i) then 3 else 2), 2 * h)
  }

  /** The way back from a failed job, from the entry `i` it began at. */
  predicate GoesBack(script: seq<Outcome>, i: nat, known: bool, h: nat, end: UpgradeEnd) {
    var next, there := i + FirstFailure(script, i) + 1, StillThere(script, i);
    && (end.RolledBack? <==> StartsAt(script, next, known, there))
    && (end.Down? <==> !StartsAt(script, next, known, there))
    && (end == RolledBack(true) <==>
          StartsAt(script, next, known, there) && LetGoAt(script, next + StartCalls(there), h))
  }

  /**
    Which way out of a window is taken, with every pooler held and entry `i` the
    next: four calls for the job, one for recording a new manifest, then a start,
    and two calls for each pooler. Each ending has its condition, and they exclude
    each other.
  */
  predicate EndsAs(script: seq<Outcome>, i: nat, known: bool, h: nat, check: bool, end: UpgradeEnd) {
    var jobDone := AllDone(script, i, 4);
    var answers := AnswersAt(script, if check then i + 4 else i + 5, known, false);
    && !end.NotStarted? && !end.HoldRefused?
    && (end.RolledBack? || end.Down? <==> !jobDone)
    && (!jobDone ==> GoesBack(script, i, known, h, end))
    && (end == Stuck(true) <==> jobDone && !answers)
    && (end.Checked? <==> jobDone && answers && check)
    && (end == Checked(true) <==> jobDone && answers && check && AllDone(script, i + 12, 2 * h))
    && (end.Upgraded? <==> jobDone && answers && !check && AllDone(script, i + 13, 2 * h))
  }

  /** The calls that replace a container under a hold. */
  function Swap(manifest: Manifest, image: Image): (calls: seq<Act>)
    ensures |calls| == 5
  {
    [Asked(StopContainer), Asked(RemoveContainer)] + BringUp(manifest, image)
  }

  function BringUp(manifest: Manifest, image: Image): seq<Act> {
    [Asked(CreateContainer(image, manifest.agentSpec, manifest.rest)), Asked(StartContainer), AskedReady]
  }

  /** How far a recreate got, and with it everything it asked for, in order. */
  datatype Recreation =
    | HoldFailed(at: nat)
    | SwapFailed(made: nat)
    | ReleaseFailed(sent: nat)
    | Completed
  {
    predicate WellFormed(holding: seq<Pooler>) {
      match this
      case HoldFailed(at) => at < |holding|
      case SwapFailed(made) => 2 <= made <= 5
      case ReleaseFailed(sent) => sent <= |Releases(holding)|
      case Completed => true
    }

    function Acts(holding: seq<Pooler>, swap: seq<Act>): seq<Act>
      requires WellFormed(holding) && |swap| == 5
    {
      if HoldFailed? then GivenUp(holding, at) else Sends(Pause, holding) + OnceHeld(holding, swap)
    }

    /** What is asked for once every pooler is held. */
    function OnceHeld(holding: seq<Pooler>, swap: seq<Act>): seq<Act>
      requires WellFormed(holding) && |swap| == 5 && !HoldFailed?
    {
      match this
      case SwapFailed(made) => swap[..made] + Sends(Resume, holding)
      case ReleaseFailed(sent) => swap + Releases(holding)[..sent]
      case Completed => swap + Releases(holding)
    }
  }

  datatype UpgradeEnd =
    | NotStarted                  // refused, or a question went unanswered, before the window
    | HoldRefused(at: nat)        // the window opened but a pooler could not be held
    | RolledBack(released: bool)  // the job failed and the old instance is back
    | Down                        // the job failed and so did the old instance
    | Stuck(beforeRelease: bool)  // cut short inside the window
    | Checked(released: bool)     // a rehearsal, back where it started
    | Upgraded

  /** The cluster is recorded as running `manifest` and a server made from it is up on data it can read. */
  ghost predicate Serving(w: World, manifest: Manifest, image: Image) {
    && w.InPhase(ClusterPhase.Running) && w.cluster.value.manifest == manifest && w.cluster.value.resolved == image
    && w.container == Some(Container(true, image, manifest.agentSpec, manifest.rest))
    && w.volume == Data(image.version)
  }

  function Stored(w: World): Manifest {
    if w.cluster.Some? then w.cluster.value.manifest else Manifest("", "", "")
  }

  function TargetOf(w: World, toImage: string): Manifest {
    Stored(w).(imageName := Trim(toImage))
  }

  /** An upgrade opens its window only for a running server and a strictly newer image. */
  ghost predicate MayStart(w: World, target: Manifest, resolve: string -> Image) {
    && w.cluster.Some? && ServerUp(w)
    && target.imageName != Trim(Stored(w).imageName)
    && w.volume == Data(resolve(Stored(w).imageName).version)
    && Older(w.volume.version, resolve(target.imageName).version)
  }

  /**
    What is true wherever an upgrade stops inside its window, killed or not: the
    data is the old or, unless this is a rehearsal, the new; the stored manifest is
    the new one only once the data is; and the phase is `Running` only if it was
    and nothing was written, or for a server that is up.
  */
  ghost predicate InWindow(before: World, after: World, target: Manifest, oldImage: Image, newImage: Image, check: bool) {
    && after.cluster.Some?
    && (after.volume == before.volume || (!check && after.volume == Data(newImage.version)))
    && (Stored(after) == Stored(before)
        || (!check && Stored(after) == target && after.volume == Data(newImage.version)))
    && (after.InPhase(ClusterPhase.Running) ==>
          after == before || Serving(after, Stored(before), oldImage) || Serving(after, target, newImage))
  }

  /** What each way of ending means, if the process was not killed. */
  ghost predicate WindowEnds(before: World, after: World, target: Manifest, oldImage: Image, newImage: Image,
                             check: bool, end: UpgradeEnd)
  {
    var same := Stored(after) == Stored(before) && after.volume == before.volume;
    match end
    case NotStarted => after == before
    case HoldRefused(_) => after.InPhase(Upgrading) && same && after.container == before.container
    case RolledBack(_) => same && Serving(after, Stored(before), oldImage)
    case Down => after.InPhase(ClusterPhase.Failed) && same
    case Stuck(_) =>
      && after.InPhase(Upgrading)
      && (if check then same else Stored(after) == target && after.volume == Data(newImage.version))
      && (after.container.Some? ==> !Differs(after.container.value, Stored(after), if check then oldImage else newImage))
    case Checked(_) => same && Serving(after, Stored(before), oldImage)
    case Upgraded => Serving(after, target, newImage)
  }

  /** Everything an upgrade asks for, when nothing fails. */
  function Window(holding: seq<Pooler>, target: Manifest, image: Image): seq<Act> {
    Sends(Pause, holding) + OnceClosed(holding, target, image)
  }

  /** What it asks for once every pooler is held. */
  function OnceClosed(holding: seq<Pooler>, target: Manifest, image: Image): seq<Act> {
    [Asked(StopContainer), Asked(RemoveContainer), Asked(PgUpgrade(image.version))]
    + OnceUpgraded(holding, target, image)
  }

  function OnceUpgraded(holding: seq<Pooler>, target: Manifest, image: Image): seq<Act> {
    BringUp(target, image) + Releases(holding)
  }

  predicate EndsIn(acts: seq<Act>, tail: seq<Act>) {
    |tail| <= |acts| && acts[|acts| - |tail|..] == tail
  }

  /** However the window ends without an error, letting every pooler's clients go is the last thing asked for. */
  predicate LetsGo(acts: seq<Act>, holding: seq<Pooler>, end: UpgradeEnd) {
    match end
    case RolledBack(released) => released ==> EndsIn(acts, Releases(holding))
    case Checked(released) => released ==> EndsIn(acts, Releases(holding))
    case Upgraded => EndsIn(acts, Releases(holding))
    case Down => EndsIn(acts, Sends(Resume, holding))
    case _ => true
  }

  datatype Event =
    | OnApply(manifest: Manifest, resolve: string -> Image, recreate: bool, wait: bool)
    | OnUpgrade(toImage: string, resolve: string -> Image, check: bool)
    | OnDelete(purge: bool)
    | OnResume(dryRun: bool)
    | Reboot
    | RegistryLost
    | PoolersApplied(poolers: seq<Pooler>)
    | HoldExpires(pooler: Pooler)

  /** Nothing but an upgrade and a purge is meant to touch data. */
  predicate KeepsData(event: Event) {
    !event.OnUpgrade? && !(event.OnDelete? && event.purge)
  }

  datatype Turn = Turn(event: Event, script: seq<Outcome>)

  /** What a delete asks podman for: a clean stop first, and the volume last. */
  function Removal(w: World, purge: bool): seq<Act> {
    if w.instance.None? then []
    else
      (if w.container.Some? then [Asked(StopContainer), Asked(RemoveContainer)] else [])
      + (if purge then [Asked(RemoveVolume)] else [])
  }

  /** Which of those calls have to succeed: not the stop. */
  predicate RemovalWorks(script: seq<Outcome>, w: World, purge: bool) {
    w.instance.Some? ==>
      && Fine(script, 0)
      && (w.container.Some? ==> Fine(script, 2))
      && (purge ==> Fine(script, if w.container.Some? then 3 else 1))
  }

  datatype DeleteEnd = Deleted | Kept | Interrupted

  class Pgpod {
    const cluster: string
    var poolers: seq<Pooler>
    var world: World
    var paused: set<(string, string)>
    var script: seq<Outcome>
    var acts: seq<Act>
    ghost const start: World
    ghost var steps: seq<Step>

    constructor (cluster: string, world: World)
      requires Safe(world)
      ensures Valid() && this.world == world == start && this.cluster == cluster && steps == []
      ensures poolers == [] && paused == {} && script == [] && acts == []
    {
      this.cluster := cluster;
      this.world := world;
      poolers, paused, script, acts := [], {}, [], [];
      start := world;
      steps := [];
    }

    /** Every write so far was one the protocol allows, and the world is what they made of it. */
    ghost predicate Valid()
      reads this
    {
      Safe(start) && Legal(start, steps) && world == Exec(start, steps) && Safe(world)
    }

    predicate Alive()
      reads `script
    {
      script != []
    }

    function Holding(): seq<Pooler>
      reads `poolers
    {
      Fronting(poolers, cluster)
    }

    /** No pool of the cluster is paused. */
    predicate NoneWaits()
      reads `poolers, `paused
    {
      paused * Flags(Holding(), cluster) == {}
    }

    // ---- single calls ------------------------------------------------

    /** A call that reads, or whose effect is not part of the cluster's state. */
    method Ask() returns (ok: bool)
      modifies `script
      ensures script == Rest(old(script))
      ensures ok <==> Fine(old(script), 0)
    {
      ok := script != [] && script[0].Done?;
      script := Rest(script);
    }

    /** A registry write: it succeeds unless the process dies first. */
    method Record(s: Step)
      requires Valid()
      requires Alive() ==> Enabled(world, s)
      modifies `world, `script, `steps
      ensures Valid() && script == Rest(old(script))
      ensures world == if old(Alive()) then Do(old(world), s) else old(world)
    {
      if script != [] {
        script := script[1..];
        Write(s);
      }
    }

    /** A podman call that changes a container or the volume. */
    method Podman(s: Step) returns (ok: bool)
      requires Valid()
      requires Alive() ==> Enabled(world, s)
      modifies `world, `script, `steps, `acts
      ensures Valid() && script == Rest(old(script))
      ensures world == if OutcomeAt(old(script), 0) == Partly(0) then old(world) else Do(old(world), s)
      ensures ok <==> Fine(old(script), 0)
      ensures ok ==> world == Do(old(world), s)
      ensures !old(Alive()) ==> world == old(world)
      ensures acts == if old(Alive()) then old(acts) + [Asked(s)] else old(acts)
    {
      ok := false;
      if script != [] {
        var outcome := script[0];
        script := script[1..];
        acts := acts + [Asked(s)];
        ok := outcome.Done?;
        if outcome != Partly(0) {
          Write(s);
        }
      }
    }

    method Write(s: Step)
      requires Valid() && Enabled(world, s)
      modifies `world, `steps
      ensures Valid() && world == Do(old(world), s)
    {
      Append(start, steps, s);
      StepKeepsSafe(world, s);
      world := Do(world, s);
      steps := steps + [s];
    }

    /** Run one verb inside a pooler container, for the pools of this cluster only. */
    method Control(pooler: Pooler, verb: Verb) returns (ok: bool)
      modifies `script, `acts, `paused
      ensures script == Rest(old(script))
      ensures ok <==> Fine(old(script), 0)
      ensures acts == if old(Alive()) then old(acts) + [Sent(verb, pooler.name)] else old(acts)
      ensures paused == if verb.Reconnect? then old(paused)
                        else if verb.Pause? then old(paused) + Reached(pooler, cluster, OutcomeAt(old(script), 0))
                        else old(paused) - Reached(pooler, cluster, OutcomeAt(old(script), 0))
    {
      ok := false;
      if script != [] {
        var outcome := script[0];
        script := script[1..];
        acts := acts + [Sent(verb, pooler.name)];
        ok := outcome.Done?;
        match verb {
          case Pause => paused := paused + Reached(pooler, cluster, outcome);
          case Resume => paused := paused - Reached(pooler, cluster, outcome);
          case Reconnect =>
        }
      }
    }

    /** Poll `pg_isready`: it can only answer while the container is up. */
    method WaitReady() returns (ok: bool)
      requires Valid()
      modifies `world, `script, `steps, `acts
      ensures Valid()
      ensures world == old(world).(instance := world.instance) && (world.instance.Some? <==> old(world.instance).Some?)
      ensures ok <==> Fine(old(script), 0) && ServerUp(old(world))
      ensures script == From(old(script), if ok && old(world.instance).Some? then 2 else 1)
      ensures ok && |old(script)| > 1 && old(world.instance).Some? ==> world.instance == Some(InstancePhase.Running)
      ensures acts == if old(Alive()) then old(acts) + [AskedReady] else old(acts)
    {
      if script != [] {
        acts := acts + [AskedReady];
      }
      ok := Ask();
      ok := ok && world.container.Some? && world.container.value.running;
      if ok && world.instance.Some? {
        Record(PutInstance(InstancePhase.Running));
      }
    }

    // ---- apply -------------------------------------------------------

    /**
      Refuse an image of another version than the data's. If the container is
      running that image, its version need not be asked for.
    */
    method RefuseIncompatibleImage(image: Image) returns (verdict: Verdict)
      requires Valid()
      modifies `script
      ensures verdict.Unanswered? <==> !AllDone(old(script), 0, Probes(world, image))
      ensures !verdict.Unanswered? ==>
                && (verdict == Compatible <==> world.Readable(image))
                && script == From(old(script), Probes(world, image))
      ensures verdict.Incompatible? ==> (verdict.newer <==> Older(world.volume.version, image.version))
      ensures old(script) == [] ==> script == []
    {
      AllDoneIsEach(script, Probes(world, image));
      var ok := Ask();
      if !ok { return Unanswered; }
      if world.volume.NoVolume? { return Compatible; }
      ok := Ask();
      if !ok { return Unanswered; }
      if world.container.Some? && world.container.value.running && world.container.value.image == image {
        return Compatible;
      }
      ok := Ask();
      if !ok { return Unanswered; }
      if !world.volume.Data? { return Compatible; }
      var diskKey, imageKey := KeyOrZero(Label(world.volume.version)), KeyOrZero(Label(image.version));
      KeyIsAnOrderEmbedding(world.volume.version, image.version);
      if diskKey == imageKey { return Compatible; }
      return Incompatible(imageKey > diskKey);
    }

    /** Create or converge the cluster. `resolve` is what image names mean on this host while it runs. */
    method Apply(manifest: Manifest, resolve: string -> Image, recreate: bool, wait: bool) returns (end: ApplyEnd)
      requires Valid()
      modifies `world, `script, `steps, `acts, `paused
      ensures Valid()
      ensures end.Refused? ==> world == old(world)
      ensures end == Applied <==>
                ApplyWorks(old(script), old(world), manifest, resolve(manifest.imageName), recreate, wait, |Holding()|)
      ensures end.Refused? <==> var image := resolve(manifest.imageName);
                || !Fine(old(script), 0) || !AllDone(old(script), 1, Probes(old(world), image))
                || !old(world).Readable(image)
      ensures end.Refused? && end.verdict.Incompatible? ==>
                && !old(world).Readable(resolve(manifest.imageName))
                && (end.verdict.newer <==> Older(old(world.volume).version, resolve(manifest.imageName).version))
      ensures end == Applied && |old(script)| >=
                ApplyCalls(old(world), manifest, resolve(manifest.imageName), recreate, wait, |Holding()|) ==>
                Converged(world, manifest, resolve(manifest.imageName))
      // A change confined to `rest` is recorded, but a container that otherwise matches keeps the old one.
      ensures end == Applied ==>
                && world.container.Some?
                && world.container.value.rest == RestAfter(old(world), manifest, resolve(manifest.imageName))
      ensures end.Failed? && Alive() ==> world.InPhase(ClusterPhase.Failed) && world.cluster.value.manifest == manifest
      ensures end == ApplyEnd.Failed(Diverged) ==>
                !recreate && ServerUp(old(world)) && !Matches(old(world), manifest, resolve)
      ensures ServerUp(old(world)) && (!recreate || Matches(old(world), manifest, resolve)) ==>
                world.container == old(world.container)
      ensures WayOf(old(world), manifest, resolve(manifest.imageName), recreate) != Recreate ==> paused == old(paused)
      ensures end == Applied && WayOf(old(world), manifest, resolve(manifest.imageName), recreate) == Recreate ==>
                paused == old(paused) - Flags(Holding(), cluster)
      // So clients that an earlier program left waiting are let go by a recreate, and by nothing else.
      ensures end == Applied ==>
                (NoneWaits() <==> WayOf(old(world), manifest, resolve(manifest.imageName), recreate) == Recreate
                                  || old(NoneWaits()))
      ensures old(world.volume).Data? ==> world.volume == old(world.volume)
      ensures world.InPhase(ClusterPhase.Running) ==>
                world == old(world) || (end == Applied && Converged(world, manifest, resolve(manifest.imageName)))
      ensures OnlyFlags(old(paused), paused, Holding(), cluster)
    {
      hide AllDone, RecordedWorks, RecordedCalls, From, Rest, WayOf, RestAfter, Fine, Converged;
      var image := resolve(manifest.imageName);
      ghost var n, way := Probes(world, image), WayOf(world, manifest, image, recreate);
      ApplyOffsets(script, n, way, |Holding()|, wait);
      var ok := Ask();
      if !ok { return Refused(Unanswered); }
      var verdict := RefuseIncompatibleImage(image);
      if verdict != Compatible { return Refused(verdict); }
      end := ApplyAllowed(manifest, image, recreate, wait);
    }

    /** An apply whose image is compatible: it is recorded first, and its end is recorded last. */
    method ApplyAllowed(manifest: Manifest, image: Image, recreate: bool, wait: bool) returns (end: ApplyEnd)
      requires Valid() && world.Readable(image)
      modifies `world, `script, `steps, `acts, `paused
      ensures Valid() && !end.Refused?
      ensures var way := WayOf(old(world), manifest, image, recreate);
              && (end == Applied <==> RecordedWorks(old(script), 1, way, |Holding()|, wait))
              && (end == Applied && |old(script)| >= 2 + RecordedCalls(way, |Holding()|, wait) ==>
                    Converged(world, manifest, image))
      ensures end == Applied ==>
                world.container.Some? && world.container.value.rest == RestAfter(old(world), manifest, image)
      ensures end.Failed? && Alive() ==> world.InPhase(ClusterPhase.Failed) && world.cluster.value.manifest == manifest
      ensures end == ApplyEnd.Failed(Diverged) ==>
                !recreate && ServerUp(old(world)) && Differs(old(world.container.value), manifest, image)
      ensures ServerUp(old(world)) && (!recreate || !Differs(old(world.container.value), manifest, image)) ==>
                world.container == old(world.container)
      ensures WayOf(old(world), manifest, image, recreate) != Recreate ==> paused == old(paused)
      ensures end == Applied && WayOf(old(world), manifest, image, recreate) == Recreate ==>
                paused == old(paused) - Flags(Holding(), cluster)
      ensures old(world.volume).Data? ==> world.volume == old(world.volume)
      ensures world.InPhase(ClusterPhase.Running) ==>
                world == old(world) || (end == Applied && Converged(world, manifest, image))
      ensures OnlyFlags(old(paused), paused, Holding(), cluster)
      ensures old(script) == [] ==> world == old(world)
    {
      hide RecordedWorks, RecordedCalls, From, Rest, WayOf, RestAfter;
      ghost var way, h := WayOf(world, manifest, image, recreate), |Holding()|;
      FromFurther(script, 0, 0);
      RecordedFurther(script, 1, way, h, wait);
      Record(PutCluster(manifest, Applying));
      SameWay(old(world), world, manifest, image, recreate);
      var ok, why := ApplyRecorded(manifest, image, recreate, wait);
      if !ok {
        Record(SetPhase(ClusterPhase.Failed, image));
        return ApplyEnd.Failed(why);
      }
      Record(SetPhase(ClusterPhase.Running, image));
      return Applied;
    }

    /** What an apply does between its first registry write and its last. */
    method ApplyRecorded(manifest: Manifest, image: Image, recreate: bool, wait: bool) returns (ok: bool, why: Failure)
      requires Valid() && world.Readable(image)
      requires Alive() ==> world.InPhase(Applying) && world.cluster.value.manifest == manifest
      modifies `world, `script, `steps, `acts, `paused
      ensures Valid() && world.cluster == old(world.cluster)
      ensures ok <==> RecordedWorks(old(script), 0, WayOf(old(world), manifest, image, recreate), |Holding()|, wait)
      ensures ok ==> script == From(old(script), RecordedCalls(WayOf(old(world), manifest, image, recreate), |Holding()|, wait))
      ensures ok ==> world.container.Some? && world.container.value.running && !Differs(world.container.value, manifest, image)
      ensures ok ==> world.container.value.rest == RestAfter(old(world), manifest, image)
      ensures ok ==> world.volume == Data(image.version)
      ensures ok && Alive() ==>
                world.instance == Some(if wait then InstancePhase.Running else Bootstrapping)
      ensures !ok && why == Diverged ==>
                !recreate && ServerUp(old(world)) && Differs(old(world.container.value), manifest, image)
      ensures ServerUp(old(world)) && (!recreate || !Differs(old(world.container.value), manifest, image)) ==>
                world.container == old(world.container)
      ensures WayOf(old(world), manifest, image, recreate) != Recreate ==> paused == old(paused)
      ensures ok && WayOf(old(world), manifest, image, recreate) == Recreate ==>
                paused == old(paused) - Flags(Holding(), cluster)
      ensures old(world.volume).Data? ==> world.volume == old(world.volume)
      ensures OnlyFlags(old(paused), paused, Holding(), cluster)
      ensures old(script) == [] ==> !ok && world == old(world) && script == []
    {
      hide From, Rest, WayWorks;
      ghost var way, h := WayOf(world, manifest, image, recreate), |Holding()|;
      RecordedOffsets(script, way, h);
      why := CallFailed;
      ok := Ask();
      if !ok { return; }
      ok, why := ApplyInstance(manifest, image, recreate);
      if ok && wait {
        ok := WaitReady();
        why := CallFailed;
      }
    }

    method ApplyInstance(manifest: Manifest, image: Image, recreate: bool) returns (ok: bool, why: Failure)
      requires Valid() && world.Readable(image)
      requires Alive() ==> world.InPhase(Applying) && world.cluster.value.manifest == manifest
      modifies `world, `script, `steps, `acts, `paused
      ensures Valid() && world.cluster == old(world.cluster)
      ensures var way := WayOf(old(world), manifest, image, recreate);
              && (ok <==> Fine(old(script), 0) && Fine(old(script), 2) && WayWorks(old(script), 3, way, |Holding()|))
              && (ok ==> script == From(old(script), 4 + WayCalls(way, |Holding()|)))
      ensures ok ==> world.container.Some? && world.container.value.running && !Differs(world.container.value, manifest, image)
      ensures ok ==> world.container.value.rest == RestAfter(old(world), manifest, image)
      ensures ok ==> world.volume == Data(image.version)
      ensures ok && Alive() ==> world.instance == Some(Bootstrapping)
      ensures ok && |old(script)| >= 4 + WayCalls(WayOf(old(world), manifest, image, recreate), |Holding()|) ==>
                world.instance == Some(Bootstrapping)
      ensures !ok && why == Diverged ==>
                !recreate && ServerUp(old(world)) && Differs(old(world.container.value), manifest, image)
      ensures ServerUp(old(world)) && (!recreate || !Differs(old(world.container.value), manifest, image)) ==>
                world.container == old(world.container)
      ensures WayOf(old(world), manifest, image, recreate) != Recreate ==> paused == old(paused)
      ensures ok && WayOf(old(world), manifest, image, recreate) == Recreate ==>
                paused == old(paused) - Flags(Holding(), cluster)
      ensures old(world.volume).Data? ==> world.volume == old(world.volume)
      ensures OnlyFlags(old(paused), paused, Holding(), cluster)
      ensures old(script) == [] ==> !ok && world == old(world) && script == []
    {
      hide WayOf, WayWorks, WayCalls, From, Rest, RestAfter, Differs, Legal, Exec;
      ghost var way, h := WayOf(world, manifest, image, recreate), |Holding()|;
      InstanceOffsets(script, way, h);
      why := CallFailed;
      ok := Podman(CreateVolume);
      if !ok { return; }
      Record(PutInstance(Creating));
      ok := Ask();
      if !ok { return; }
      SameWay(old(world), world, manifest, image, recreate);
      ok, why := Converge(manifest, image, recreate);
      if !ok { return; }
      Record(PutInstance(Bootstrapping));
    }

    /** What an apply does with the container it finds: keep, start, replace or recreate it, or refuse to. */
    method Converge(manifest: Manifest, image: Image, recreate: bool) returns (ok: bool, why: Failure)
      requires Valid() && world.Readable(image) && !world.volume.NoVolume?
      requires world.instance.Some? && (Alive() ==> world.InPhase(Applying))
      modifies `world, `script, `steps, `acts, `paused
      ensures Valid() && world.cluster == old(world.cluster)
      ensures var way := WayOf(old(world), manifest, image, recreate);
              && (ok <==> WayWorks(old(script), 0, way, |Holding()|))
              && (ok ==> script == From(old(script), WayCalls(way, |Holding()|)))
      ensures world.instance.Some?
      ensures ok ==> world.container.Some? && world.container.value.running && !Differs(world.container.value, manifest, image)
      ensures ok ==> world.container.value.rest == RestAfter(old(world), manifest, image)
      ensures ok ==> world.volume == Data(image.version)
      ensures !ok && why == Diverged ==>
                !recreate && ServerUp(old(world)) && Differs(old(world.container.value), manifest, image)
      ensures ServerUp(old(world)) && (!recreate || !Differs(old(world.container.value), manifest, image)) ==>
                world.container == old(world.container)
      ensures WayOf(old(world), manifest, image, recreate) != Recreate ==> paused == old(paused)
      ensures ok && WayOf(old(world), manifest, image, recreate) == Recreate ==>
                paused == old(paused) - Flags(Holding(), cluster)
      ensures old(world.volume).Data? ==> world.volume == old(world.volume)
      ensures OnlyFlags(old(paused), paused, Holding(), cluster)
    {
      hide From, Rest, AllDone, RecreateWorks, Fine, Flags, Differs, Legal, Exec, OnlyFlags;
      NoFlagChanges(paused, Holding(), cluster);
      MadeToMatch(manifest, image);
      if world.container.Some? {
        StartedDiffersAlike(world.container.value, manifest, image);
      }
      ok, why := true, CallFailed;
      FromFurther(script, 0, 1);
      if world.container.Some? && world.container.value.running {
        if Differs(world.container.value, manifest, image) {
          if !recreate { return false, Diverged; }
          ghost var how;
          ok, how := RecreateInstance(manifest, image);
        }
      } else if world.container.Some? && !Differs(world.container.value, manifest, image) {
        ok := Podman(StartContainer);
      } else {
        ok := CreateAndStart(manifest, image);
      }
    }

    /** Make the container anew. A stopped one made from something else is removed first. */
    method CreateAndStart(manifest: Manifest, image: Image) returns (ok: bool)
      requires Valid() && world.Readable(image) && !world.volume.NoVolume?
      requires Alive() ==> !world.InPhase(ClusterPhase.Running)
      modifies `world, `script, `steps, `acts
      ensures Valid()
      ensures world == old(world).(container := world.container, volume := world.volume)
      ensures old(world.volume).Data? ==> world.volume == old(world.volume)
      ensures ok ==> world.container == Some(Container(true, image, manifest.agentSpec, manifest.rest)) && world.volume.Data?
      ensures ok <==> AllDone(old(script), 0, if old(world.container).Some? then 4 else 3)
      ensures ok ==> script == From(old(script), if old(world.container).Some? then 4 else 3)
      ensures old(script) == [] ==> !ok && world == old(world) && script == []
    {
      AllDoneIsEach(script, if world.container.Some? then 4 else 3);
      ok := Ask();
      if !ok { return; }
      if world.container.Some? {
        ok := Podman(RemoveContainer);
        if !ok { return; }
      }
      ghost var made;
      ok, made := Launch(manifest, image);
    }

    /** Create a container under the free name and start it: `made` of the two calls are made. */
    method Launch(manifest: Manifest, image: Image) returns (ok: bool, ghost made: nat)
      requires Valid() && world.Readable(image) && world.container.None? && !world.volume.NoVolume?
      requires Alive() ==> !world.InPhase(ClusterPhase.Running)
      modifies `world, `script, `steps, `acts
      ensures Valid()
      ensures world == old(world).(container := world.container, volume := world.volume)
      ensures old(world.volume).Data? ==> world.volume == old(world.volume)
      ensures ok <==> Fine(old(script), 0) && Fine(old(script), 1)
      ensures |script| + 2 >= |old(script)|
      ensures ok ==> script == From(old(script), 2) && world.volume.Data?
      ensures ok ==> world.container == Some(Container(true, image, manifest.agentSpec, manifest.rest))
      ensures world.container.Some? ==> !Differs(world.container.value, manifest, image)
      ensures 1 <= made <= 2 && (ok ==> made == 2)
      ensures ok || Alive() ==> acts == old(acts) + BringUp(manifest, image)[..made]
      ensures old(script) == [] ==> !ok && world == old(world) && script == []
    {
      ghost var calls := BringUp(manifest, image);
      NextCall(old(acts), calls, 0);
      ok := Podman(CreateContainer(image, manifest.agentSpec, manifest.rest));
      made := 1;
      if ok {
        NextCall(old(acts), calls, 1);
        ok := Podman(StartContainer);
        made := 2;
      }
    }

    /** Take the running container away. */
    method StopAndRemove() returns (ok: bool)
      requires Valid() && world.container.Some?
      modifies `world, `script, `steps, `acts
      ensures Valid()
      ensures world == old(world).(container := world.container)
      ensures ok <==> Fine(old(script), 1)
      ensures script == From(old(script), 2)
      ensures ok ==> world.container.None?
      ensures ok || Alive() ==> acts == old(acts) + [Asked(StopContainer), Asked(RemoveContainer)]
      ensures old(script) == [] ==> !ok && world == old(world) && script == []
    {
      var _ := Podman(StopContainer);
      ok := Podman(RemoveContainer);
    }

    /** Replace the container while every pooler in front holds its clients; `how` says how far it got. */
    method RecreateInstance(manifest: Manifest, image: Image) returns (ok: bool, ghost how: Recreation)
      requires Valid() && world.container.Some? && world.volume.Data? && world.Readable(image)
      requires Alive() ==> world.InPhase(Applying)
      modifies `world, `script, `steps, `acts, `paused
      ensures Valid()
      ensures world == old(world).(container := world.container, instance := world.instance)
      ensures world.instance.Some? <==> old(world.instance).Some?
      ensures ok ==> world.container == Some(Container(true, image, manifest.agentSpec, manifest.rest))
      ensures ok <==> RecreateWorks(old(script), 0, |Holding()|, old(world.instance).Some?)
      ensures ok ==> script == From(old(script), 3 * |Holding()| + if old(world.instance).Some? then 6 else 5)
      ensures how.HoldFailed? <==> !AllDone(old(script), 0, |Holding()|)
      ensures ok <==> how == Completed
      ensures how.WellFormed(Holding())
      ensures ok || Alive() ==> acts == old(acts) + how.Acts(Holding(), Swap(manifest, image))
      ensures how.HoldFailed? ==> world == old(world)
      ensures ok ==> paused == old(paused) - Flags(Holding(), cluster)
      ensures OnlyFlags(old(paused), paused, Holding(), cluster)
      ensures old(script) == [] ==> !ok && world == old(world) && script == []
    {
      hide AllDone, From, AfterResumes, Swap, Sends, Flags, Recreation.OnceHeld, GivenUp, Fine, OutcomeAt, Legal, Exec;
      ghost var known, h := world.instance.Some?, |Holding()|;
      RecreateOffsets(script, h, known);
      var hold := new PoolerHold(this);
      ghost var k;
      ok, k := hold.Acquire();
      how := HoldFailed(k);
      if ok {
        ok, how := SwapUnderHold(hold, manifest, image);
        Associate(old(acts), Sends(Pause, Holding()), how.OnceHeld(Holding(), Swap(manifest, image)));
      }
    }

    /** Swap the container and let the clients go, whichever way the swap ended. */
    method SwapUnderHold(hold: PoolerHold, manifest: Manifest, image: Image) returns (ok: bool, ghost how: Recreation)
      requires Valid() && world.container.Some? && world.volume.Data? && world.Readable(image)
      requires hold.pgpod == this && hold.held == Holding()
      requires Alive() ==> world.InPhase(Applying)
      modifies hold, `world, `script, `steps, `acts, `paused
      ensures Valid()
      ensures world == old(world).(container := world.container, instance := world.instance)
      ensures world.instance.Some? <==> old(world.instance).Some?
      ensures ok ==> world.container == Some(Container(true, image, manifest.agentSpec, manifest.rest))
      ensures ok <==> AllDone(old(script), 1, 4)
                      && AllDone(old(script), if old(world.instance).Some? then 6 else 5, 2 * |Holding()|)
      ensures ok ==> script == From(old(script), 2 * |Holding()| + if old(world.instance).Some? then 6 else 5)
      ensures !how.HoldFailed? && (ok <==> how == Completed) && how.WellFormed(Holding())
      ensures ok || Alive() ==> acts == old(acts) + how.OnceHeld(Holding(), Swap(manifest, image))
      ensures ok ==> paused == old(paused) - Flags(Holding(), cluster)
      ensures OnlyFlags(old(paused), paused, Holding(), cluster)
      ensures old(script) == [] ==> !ok && world == old(world) && script == []
    {
      hide AllDone, From, AfterResumes;
      ghost var holding, swap := Holding(), Swap(manifest, image);
      ghost var n := if world.instance.Some? then 6 else 5;
      AllDoneFurther(script, n, 0, 2 * |holding|);
      FromFurther(script, n, 2 * |holding|);
      ghost var k;
      ok, k := RecreateHeld(manifest, image);
      if ok {
        assert swap[..k] == swap;
        ok, k := hold.ReleaseAfterRecreate();
        how := if ok then Completed else ReleaseFailed(k);
        Associate(old(acts), swap, Releases(holding)[..k]);
        assert ok ==> Releases(holding)[..k] == Releases(holding);
      } else {
        how := SwapFailed(k);
        hold.Release();
        Associate(old(acts), swap[..k], Sends(Resume, holding));
      }
    }

    /** The swap itself: `made` of the calls of `Swap` are made. */
    method RecreateHeld(manifest: Manifest, image: Image) returns (ok: bool, ghost made: nat)
      requires Valid() && world.container.Some? && world.volume.Data? && world.Readable(image)
      requires Alive() ==> world.InPhase(Applying)
      modifies `world, `script, `steps, `acts
      ensures Valid()
      ensures world == old(world).(container := world.container, instance := world.instance)
      ensures world.instance.Some? <==> old(world.instance).Some?
      ensures ok ==> world.container == Some(Container(true, image, manifest.agentSpec, manifest.rest))
      ensures ok <==> AllDone(old(script), 1, 4)
      ensures ok ==> script == From(old(script), if old(world.instance).Some? then 6 else 5)
      ensures 2 <= made <= |Swap(manifest, image)| && (ok ==> made == |Swap(manifest, image)|)
      ensures ok || Alive() ==> acts == old(acts) + Swap(manifest, image)[..made]
      ensures old(script) == [] ==> !ok && world == old(world) && script == []
    {
      FourIsEach(script, 1);
      ghost var removal, calls := [Asked(StopContainer), Asked(RemoveContainer)], BringUp(manifest, image);
      ok := StopAndRemove();
      made := 0;
      if ok {
        ok, made := Launch(manifest, image);
      }
      if ok {
        ok := WaitReady();
        made := 3;
        NextCall(old(acts) + removal, calls, 2);
      }
      Regroup(old(acts), removal, calls, made);
      made := made + 2;
    }

    // ---- upgrade -----------------------------------------------------

    /**
      The `pg_upgrade` job. It is one step that either leaves the data as it was
      and fails, or replaces it; a rehearsal only ever does the former.
    */
    method RunPgUpgrade(to: Version, check: bool) returns (ok: bool)
      requires Valid()
      requires Alive() ==> Enabled(world, PgUpgrade(to))
      modifies `world, `script, `steps, `acts
      ensures Valid() && script == Rest(old(script))
      ensures world == if ok && !check then Do(old(world), PgUpgrade(to)) else old(world)
      ensures ok <==> Fine(old(script), 0)
      ensures acts == if old(Alive()) && !check then old(acts) + [Asked(PgUpgrade(to))] else old(acts)
    {
      if script != [] && !check {
        acts := acts + [Asked(PgUpgrade(to))];
      }
      ok := Ask();
      if ok && !check {
        Write(PgUpgrade(to));
      }
    }

    /** Stop and remove the instance, then run the job. It starts nothing. */
    method UpgradeHeld(to: Version, check: bool) returns (ok: bool)
      requires Valid() && world.volume.Data? && Older(world.volume.version, to)
      requires world.container.Some? && (Alive() ==> world.InPhase(Upgrading))
      modifies `world, `script, `steps, `acts
      ensures Valid()
      ensures world == old(world).(container := world.container, volume := world.volume)
      ensures world.volume == if ok && !check then Data(to) else old(world.volume)
      ensures ok <==> AllDone(old(script), 0, 4)
      ensures ok ==> script == From(old(script), 4) && world.container.None?
      ensures !ok ==> script == From(old(script), FirstFailure(old(script), 0) + 1)
      ensures !ok ==> (world.container.Some? <==> StillThere(old(script), 0))
      ensures ok && !check ==>
                acts == old(acts) + [Asked(StopContainer), Asked(RemoveContainer), Asked(PgUpgrade(to))]
      ensures |script| + 4 >= |old(script)|
      ensures old(script) == [] ==> !ok && world == old(world) && script == []
    {
      hide Legal, Exec;
      FourIsEach(script, 0);
      ok := Ask();
      if !ok { return; }
      ok := Podman(StopContainer);
      if !ok { return; }
      ok := Podman(RemoveContainer);
      if !ok { return; }
      ok := RunPgUpgrade(to, check);
    }

    /** Bring up a container for `manifest`; another one under its name is taken away first. */
    method StartInstance(manifest: Manifest, image: Image) returns (ok: bool)
      requires Valid() && world.volume.Data? && world.Readable(image)
      requires Alive() ==> world.InPhase(Upgrading)
      modifies `world, `script, `steps, `acts
      ensures Valid()
      ensures world == old(world).(container := world.container, instance := world.instance)
      ensures ok <==> StartsAt(old(script), 0, old(world.instance).Some?, old(world.container).Some?)
      ensures ok ==> script == From(old(script), StartCalls(old(world.container).Some?)) && old(world.instance).Some?
      ensures ok ==> world.instance.Some?
      ensures ok ==> world.container == Some(Container(true, image, manifest.agentSpec, manifest.rest))
      ensures ok && old(world.container).None? ==>
                acts == old(acts) + BringUp(manifest, image)[..2]
      ensures |script| + 7 >= |old(script)|
      ensures old(world.container).None? && world.container.Some? ==> !Differs(world.container.value, manifest, image)
      ensures old(script) == [] ==> !ok && world == old(world) && script == []
    {
      StartIsEach(script, world.instance.Some?, world.container.Some?);
      ok := Ask();
      if !ok { return; }
      if world.instance.None? { return false; }
      ok := Ask();
      if !ok { return; }
      if world.container.Some? {
        ok := StopAndRemove();
        if !ok { return; }
      }
      ghost var made;
      ok, made := Launch(manifest, image);
      if !ok { return; }
      Record(PutInstance(Bootstrapping));
    }

    method StartAndWait(manifest: Manifest, image: Image) returns (ok: bool)
      requires Valid() && world.volume.Data? && world.Readable(image)
      requires Alive() ==> world.InPhase(Upgrading)
      modifies `world, `script, `steps, `acts
      ensures Valid()
      ensures world == old(world).(container := world.container, instance := world.instance)
      ensures ok ==> world.container == Some(Container(true, image, manifest.agentSpec, manifest.rest))
      ensures ok <==> AnswersAt(old(script), 0, old(world.instance).Some?, old(world.container).Some?)
      ensures ok ==> script == From(old(script), StartCalls(old(world.container).Some?) + 2)
      ensures ok && old(world.container).None? ==> acts == old(acts) + BringUp(manifest, image)
      ensures |script| + 9 >= |old(script)|
      ensures old(world.container).None? && world.container.Some? ==> !Differs(world.container.value, manifest, image)
      ensures old(script) == [] ==> !ok && world == old(world) && script == []
    {
      FineFurther(script, StartCalls(world.container.Some?), 0);
      FromFurther(script, StartCalls(world.container.Some?), 2);
      hide From, StartsAt, StartCalls;
      ghost var calls := BringUp(manifest, image);
      ok := StartInstance(manifest, image);
      if ok {
        NextCall(old(acts), calls, 2);
        assert calls[..3] == calls;
        ok := WaitReady();
      }
    }

    /** The checks an upgrade makes while nothing has been changed: only these can turn it down. */
    method PlanUpgrade(manifest: Manifest, target: Manifest, resolve: string -> Image) returns (ok: bool)
      requires Valid()
      modifies `script
      ensures ok <==> && AllDone(old(script), 0, 4)
                      && ServerUp(world) && world.volume == Data(resolve(manifest.imageName).version)
                      && Older(world.volume.version, resolve(target.imageName).version)
      ensures ok ==> script == From(old(script), 4)
      ensures |script| + 4 >= |old(script)|
      ensures old(script) == [] ==> !ok && script == []
    {
      FourIsEach(script, 0);
      ok := Ask();
      if !ok { return; }
      // Asking a server for its data's version takes a server that is up.
      ok := Ask();
      if !ok || !ServerUp(world) { return false; }
      var from := world.volume.version;
      ok := Ask();
      if !ok { return; }
      var probed := resolve(target.imageName).version;
      var fromKey, toKey := KeyOrZero(Label(from)), KeyOrZero(Label(probed));
      KeyIsAnOrderEmbedding(from, probed);
      KeyIsAnOrderEmbedding(probed, from);
      if toKey == fromKey { return false; }
      if toKey < fromKey { return false; }
      // Staging runs in the stored image, which a moved tag may have made another version.
      ok := Ask();
      ok := ok && resolve(manifest.imageName).version == from;
    }

    method Upgrade(toImage: string, resolve: string -> Image, check: bool) returns (end: UpgradeEnd)
      requires Valid()
      modifies `world, `script, `steps, `acts, `paused
      ensures Valid()
      ensures end.NotStarted? ==> world == old(world) && acts == old(acts) && paused == old(paused)
      ensures !end.NotStarted? <==>
                MayStart(old(world), TargetOf(old(world), toImage), resolve) && AllDone(old(script), 0, 4)
      ensures end.HoldRefused? <==> !end.NotStarted? && !AllDone(old(script), 5, |Holding()|)
      ensures end.HoldRefused? ==> AllDone(old(script), 5, end.at) && !Fine(old(script), 5 + end.at)
      ensures !end.NotStarted? && !end.HoldRefused? ==>
                EndsAs(old(script), 5 + |Holding()|, old(world.instance).Some?, |Holding()|, check, end)
      ensures var target := TargetOf(old(world), toImage);
              !end.NotStarted? ==>
                InWindow(old(world), world, target, resolve(Stored(old(world)).imageName), resolve(target.imageName), check)
      ensures var target := TargetOf(old(world), toImage);
              !end.NotStarted? && Alive() ==>
                WindowEnds(old(world), world, target, resolve(Stored(old(world)).imageName), resolve(target.imageName), check, end)
      ensures end.HoldRefused? ==> end.at < |Holding()|
      ensures end.HoldRefused? && Alive() ==> acts == old(acts) + GivenUp(Holding(), end.at)
      ensures end.HoldRefused? ==> paused == LeftPaused(old(paused), Holding(), cluster, old(script), 5, end.at)
      ensures end == Stuck(true) ==> Flags(Holding(), cluster) <= paused
      ensures end == Checked(true) || end == RolledBack(true) || end.Upgraded? ==>
                paused == old(paused) - Flags(Holding(), cluster)
      ensures !end.NotStarted? && Alive() ==> LetsGo(acts, Holding(), end)
      ensures end.Upgraded? ==>
                acts == old(acts) + Window(Holding(), TargetOf(old(world), toImage), resolve(Trim(toImage)))
      ensures OnlyFlags(old(paused), paused, Holding(), cluster)
      // A process that is given more entries than that is not killed.
      ensures |script| + 23 + 3 * |Holding()| >= |old(script)|
    {
      hide AllDone, EndsAs, From, Rest, Fine, GivenUp, LetsGo, InWindow, WindowEnds, Window, Flags, LeftPaused, OnlyFlags;
      ghost var known, h := world.instance.Some?, |Holding()|;
      NoFlagChanges(paused, Holding(), cluster);
      if world.cluster.None? { return NotStarted; }
      var manifest := world.cluster.value.manifest;
      if Trim(toImage) == Trim(manifest.imageName) { return NotStarted; }
      var target := manifest.(imageName := Trim(toImage));
      var ok := PlanUpgrade(manifest, target, resolve);
      if !ok { return NotStarted; }
      end := UpgradePlanned(target, resolve(manifest.imageName), resolve(target.imageName), check);
      PlanOffsets(old(script), 4, 1, known, h, check, end);
      if end.HoldRefused? {
        LeftOffsets(old(paused), Holding(), cluster, old(script), 4, 1, end.at);
      }
    }

    /** An upgrade that is going ahead says so before it holds anyone. */
    method UpgradePlanned(target: Manifest, oldImage: Image, newImage: Image, check: bool) returns (end: UpgradeEnd)
      requires Valid()
      requires world.cluster.Some? && ServerUp(world) && world.volume == Data(oldImage.version)
      requires Older(oldImage.version, newImage.version)
      modifies `world, `script, `steps, `acts, `paused
      ensures Valid() && !end.NotStarted?
      ensures end.HoldRefused? <==> !AllDone(old(script), 1, |Holding()|)
      ensures end.HoldRefused? ==> AllDone(old(script), 1, end.at) && !Fine(old(script), 1 + end.at)
      ensures !end.HoldRefused? ==> EndsAs(old(script), 1 + |Holding()|, old(world.instance).Some?, |Holding()|, check, end)
      ensures InWindow(old(world), world, target, oldImage, newImage, check)
      ensures Alive() ==> WindowEnds(old(world), world, target, oldImage, newImage, check, end)
      ensures end.HoldRefused? ==> end.at < |Holding()|
      ensures end.HoldRefused? && Alive() ==> acts == old(acts) + GivenUp(Holding(), end.at)
      ensures end.HoldRefused? ==> paused == LeftPaused(old(paused), Holding(), cluster, old(script), 1, end.at)
      ensures end == Stuck(true) ==> Flags(Holding(), cluster) <= paused
      ensures end == Checked(true) || end == RolledBack(true) || end.Upgraded? ==>
                paused == old(paused) - Flags(Holding(), cluster)
      ensures Alive() ==> LetsGo(acts, Holding(), end)
      ensures end.Upgraded? ==> acts == old(acts) + Window(Holding(), target, newImage)
      ensures OnlyFlags(old(paused), paused, Holding(), cluster)
      ensures |script| + 19 + 3 * |Holding()| >= |old(script)|
    {
      hide AllDone, EndsAs, From, Rest, Fine, GivenUp, LetsGo, Serving, Window, Flags, LeftPaused, OnlyFlags, Legal, Exec;
      ghost var known, h := world.instance.Some?, |Holding()|;
      FromFurther(script, 0, 0);
      Record(SetPhase(Upgrading, world.cluster.value.resolved));
      end := OpenWindow(target, oldImage, newImage, check);
      PlanOffsets(old(script), 1, 0, known, h, check, end);
      if end.HoldRefused? {
        LeftOffsets(old(paused), Holding(), cluster, old(script), 1, 0, end.at);
      }
    }

    /** Hold every pooler, then go through the window; one failed pause, and it does not open. */
    method OpenWindow(target: Manifest, oldImage: Image, newImage: Image, check: bool) returns (end: UpgradeEnd)
      requires Valid()
      requires world.cluster.Some? && world.container.Some? && world.volume == Data(oldImage.version)
      requires Older(oldImage.version, newImage.version)
      requires Alive() ==> world.InPhase(Upgrading)
      modifies `world, `script, `steps, `acts, `paused
      ensures Valid() && world.cluster.Some? && !end.NotStarted?
      ensures end.HoldRefused? <==> !AllDone(old(script), 0, |Holding()|)
      ensures end.HoldRefused? ==> AllDone(old(script), 0, end.at) && !Fine(old(script), end.at) && world == old(world)
      ensures !end.HoldRefused? ==> EndsAs(old(script), |Holding()|, old(world.instance).Some?, |Holding()|, check, end)
      ensures InWindow(old(world), world, target, oldImage, newImage, check)
      ensures Alive() ==> WindowEnds(old(world), world, target, oldImage, newImage, check, end)
      ensures end.HoldRefused? ==> end.at < |Holding()|
      ensures end.HoldRefused? && Alive() ==> acts == old(acts) + GivenUp(Holding(), end.at)
      ensures end.HoldRefused? ==> paused == LeftPaused(old(paused), Holding(), cluster, old(script), 0, end.at)
      ensures end == Stuck(true) ==> Flags(Holding(), cluster) <= paused
      ensures end == Checked(true) || end == RolledBack(true) || end.Upgraded? ==>
                paused == old(paused) - Flags(Holding(), cluster)
      ensures Alive() ==> LetsGo(acts, Holding(), end)
      ensures end.Upgraded? ==> acts == old(acts) + Window(Holding(), target, newImage)
      ensures OnlyFlags(old(paused), paused, Holding(), cluster)
      ensures |script| + 18 + 3 * |Holding()| >= |old(script)|
    {
      hide AllDone, EndsAs, From, Rest, Fine, AfterResumes, Serving, GivenUp, EndsIn, OnceClosed, Flags, Sends,
           Reached, LeftPaused;
      ghost var known, h := world.instance.Some?, |Holding()|;
      var hold := new PoolerHold(this);
      var ok, at := hold.Acquire();
      end := HoldRefused(at);
      if ok {
        end := InsideWindow(hold, target, oldImage, newImage, check);
        EndsFurther(old(script), h, 0, known, h, check, end);
        Associate(old(acts), Sends(Pause, Holding()), OnceClosed(Holding(), target, newImage));
      }
    }

    /** The window itself: the clients are held, and the job decides which way out is taken. */
    method InsideWindow(hold: PoolerHold, target: Manifest, oldImage: Image, newImage: Image, check: bool)
      returns (end: UpgradeEnd)
      requires Valid() && hold.pgpod == this && hold.held == Holding()
      requires world.cluster.Some? && world.container.Some? && world.volume == Data(oldImage.version)
      requires Older(oldImage.version, newImage.version)
      requires Alive() ==> world.InPhase(Upgrading)
      modifies hold, `world, `script, `steps, `acts, `paused
      ensures Valid() && world.cluster.Some?
      ensures !end.NotStarted? && !end.HoldRefused?
      ensures InWindow(old(world), world, target, oldImage, newImage, check)
      ensures Alive() ==> WindowEnds(old(world), world, target, oldImage, newImage, check, end)
      ensures EndsAs(old(script), 0, old(world.instance).Some?, |Holding()|, check, end)
      ensures end == Stuck(true) ==> paused == old(paused)
      ensures end == Checked(true) || end == RolledBack(true) || end.Upgraded? ==>
                paused == old(paused) - Flags(Holding(), cluster)
      ensures Alive() ==> LetsGo(acts, Holding(), end)
      ensures end.Upgraded? ==> acts == old(acts) + OnceClosed(Holding(), target, newImage)
      ensures OnlyFlags(old(paused), paused, Holding(), cluster)
      ensures |script| + 18 + 2 * |Holding()| >= |old(script)|
      ensures old(script) == [] ==> world == old(world) && script == []
    {
      hide AllDone, AnswersAt, From, Rest, OnceUpgraded, EndsIn, Serving, Flags, Releases, Legal, Exec;
      hide StartsAt, LetGoAt, StillThere, FirstFailure, EndsAs, OnlyFlags, OnceClosed, BringUp, LetsGo, Pgpod.Valid,
           Fronting, Sends, InWindow, WindowEnds;
      WindowOffsets(script, world.instance.Some?, |Holding()|);
      ghost var known, h := world.instance.Some?, |Holding()|;
      BackOffsets(script, FirstFailure(script, 0) + 1, known, StillThere(script, 0), h);
      var ok := UpgradeHeld(newImage.version, check);
      if !ok {
        end := RollBack(hold, Stored(world), oldImage);
        EndsBack(old(script), known, h, check, end);
        BackInWindow(old(world), world, target, oldImage, newImage, check, end, script != []);
      } else if check {
        end := FinishCheck(hold, Stored(world), oldImage);
        EndsChecked(old(script), known, h, end);
        CheckedInWindow(old(world), world, target, oldImage, newImage, end, script != []);
      } else {
        Record(PutCluster(target, Upgrading));
        end := FinishUpgrade(hold, target, newImage);
        EndsUpgraded(old(script), known, h, end);
        UpgradedInWindow(old(world), world, target, oldImage, newImage, end, script != []);
        JobThenServer(old(acts), Holding(), target, newImage);
      }
    }

    /** The job failed and swapped nothing, so the way back is the image the instance was on. */
    method RollBack(hold: PoolerHold, manifest: Manifest, image: Image) returns (end: UpgradeEnd)
      requires Valid() && hold.pgpod == this && hold.held == Holding()
      requires world.volume == Data(image.version) && world.cluster.Some? && Stored(world) == manifest
      requires Alive() ==> world.InPhase(Upgrading)
      modifies hold, `world, `script, `steps, `acts, `paused
      ensures Valid() && world.cluster.Some?
      ensures Stored(world) == manifest && world.volume == old(world.volume)
      ensures end.RolledBack? || end.Down?
      ensures end.RolledBack? <==> StartsAt(old(script), 0, old(world.instance).Some?, old(world.container).Some?)
      ensures end == RolledBack(true) <==>
                && StartsAt(old(script), 0, old(world.instance).Some?, old(world.container).Some?)
                && LetGoAt(old(script), StartCalls(old(world.container).Some?), |Holding()|)
      ensures end.RolledBack? && Alive() ==> Serving(world, manifest, image)
      ensures end.Down? && Alive() ==> world.InPhase(ClusterPhase.Failed)
      ensures world.InPhase(ClusterPhase.Running) ==>
                old(world).InPhase(ClusterPhase.Running) || Serving(world, manifest, image)
      ensures end == RolledBack(true) ==> paused == old(paused) - Flags(Holding(), cluster)
      ensures Alive() ==> LetsGo(acts, Holding(), end)
      ensures OnlyFlags(old(paused), paused, Holding(), cluster)
      ensures |script| + 10 + 2 * |Holding()| >= |old(script)|
      ensures old(script) == [] ==> world == old(world) && script == []
    {
      hide From, Rest, AllDone, StartsAt, StartCalls, Legal, Exec, Flags, Releases;
      ghost var n := StartCalls(world.container.Some?);
      LetGoOffsets(script, n, |Holding()|);
      var ok := StartInstance(manifest, image);
      if !ok {
        Record(SetPhase(ClusterPhase.Failed, image));
        hold.Release();
        return Down;
      }
      var _ := WaitReady();
      Record(SetPhase(ClusterPhase.Running, image));
      ghost var sent;
      ok, sent := hold.ReleaseAfterRecreate();
      return RolledBack(ok);
    }

    /** After a rehearsal the instance goes back up unchanged, on the image it had. */
    method FinishCheck(hold: PoolerHold, manifest: Manifest, image: Image) returns (end: UpgradeEnd)
      requires Valid() && hold.pgpod == this && hold.held == Holding()
      requires world.volume == Data(image.version) && world.cluster.Some? && Stored(world) == manifest
      requires Alive() ==> world.InPhase(Upgrading)
      modifies hold, `world, `script, `steps, `acts, `paused
      ensures Valid() && world.cluster.Some?
      ensures Stored(world) == manifest && world.volume == old(world.volume)
      ensures end.Checked? || end == Stuck(true)
      ensures end == Stuck(true) <==> !AnswersAt(old(script), 0, old(world.instance).Some?, old(world.container).Some?)
      ensures end.Checked? ==>
                (end.released <==>
                   AllDone(old(script), StartCalls(old(world.container).Some?) + 3, 2 * |Holding()|))
      ensures end.Checked? && Alive() ==> Serving(world, manifest, image)
      ensures end.Stuck? ==> paused == old(paused) && world.cluster == old(world.cluster)
      ensures world.InPhase(ClusterPhase.Running) ==>
                old(world).InPhase(ClusterPhase.Running) || Serving(world, manifest, image)
      ensures end == Checked(true) ==> paused == old(paused) - Flags(Holding(), cluster)
      ensures Alive() ==> LetsGo(acts, Holding(), end)
      ensures end.Stuck? && old(world.container).None? && world.container.Some? ==>
                !Differs(world.container.value, manifest, image)
      ensures OnlyFlags(old(paused), paused, Holding(), cluster)
      ensures |script| + 10 + 2 * |Holding()| >= |old(script)|
      ensures old(script) == [] ==> world == old(world) && script == []
    {
      hide AllDone, AnswersAt, From, Rest;
      ghost var n := StartCalls(world.container.Some?) + 2;
      FromFurther(script, n, 0);
      AllDoneFurther(script, n + 1, 0, 2 * |Holding()|);
      var ok := StartAndWait(manifest, image);
      if !ok { return Stuck(true); }
      Record(SetPhase(ClusterPhase.Running, image));
      ghost var sent;
      ok, sent := hold.ReleaseAfterRecreate();
      return Checked(ok);
    }

    /** The data is the new version and the registry says so; bring the server up and let the clients go. */
    method FinishUpgrade(hold: PoolerHold, target: Manifest, image: Image) returns (end: UpgradeEnd)
      requires Valid() && hold.pgpod == this && hold.held == Holding()
      requires world.volume == Data(image.version) && world.container.None? && world.cluster.Some?
      requires Alive() ==> world.InPhase(Upgrading) && Stored(world) == target
      modifies hold, `world, `script, `steps, `acts, `paused
      ensures Valid() && world.cluster.Some?
      ensures Stored(world) == old(Stored(world)) && world.volume == old(world.volume)
      ensures end.Upgraded? || end.Stuck?
      ensures end == Stuck(true) <==> !AnswersAt(old(script), 0, old(world.instance).Some?, false)
      ensures end.Upgraded? <==> AnswersAt(old(script), 0, old(world.instance).Some?, false)
                                 && AllDone(old(script), 8, 2 * |Holding()|)
      ensures end.Upgraded? && Alive() ==> Serving(world, target, image)
      ensures end.Stuck? ==> world.cluster == old(world.cluster)
      ensures end == Stuck(true) ==> paused == old(paused)
      ensures world.InPhase(ClusterPhase.Running) ==>
                old(world).InPhase(ClusterPhase.Running) || Serving(world, target, image)
      ensures end.Upgraded? ==> paused == old(paused) - Flags(Holding(), cluster)
      ensures Alive() ==> LetsGo(acts, Holding(), end)
      ensures end.Upgraded? ==> acts == old(acts) + OnceUpgraded(Holding(), target, image)
      ensures end.Stuck? && world.container.Some? ==> !Differs(world.container.value, target, image)
      ensures OnlyFlags(old(paused), paused, Holding(), cluster)
      ensures |script| + 13 + 2 * |Holding()| >= |old(script)|
      ensures old(script) == [] ==> world == old(world) && script == []
    {
      hide AllDone, AnswersAt, From, Rest, Flags, Releases, Legal, Exec;
      FromFurther(script, 7, 0);
      AllDoneFurther(script, 8, 0, 2 * |Holding()|);
      var ok := StartAndWait(target, image);
      if !ok { return Stuck(true); }
      // Teaching the archive the new version may fail; it is a warning.
      var _ := Ask();
      ghost var sent;
      ok, sent := hold.ReleaseAfterRecreate();
      if !ok { return Stuck(false); }
      Associate(old(acts), BringUp(target, image), Releases(Holding()));
      // So may rebuilding statistics and taking a backup.
      var _ := Ask();
      var _ := Ask();
      Record(SetPhase(ClusterPhase.Running, image));
      return Upgraded;
    }

    // ---- delete ------------------------------------------------------

    /** Remove the container, and the volume only for a purge, which a pooler in front refuses. */
    method Delete(purge: bool) returns (end: DeleteEnd)
      requires Valid()
      modifies `world, `script, `steps, `acts
      ensures Valid()
      ensures end.Kept? <==> old(world).cluster.None? || (purge && Holding() != [])
      ensures end.Deleted? <==> !end.Kept? && RemovalWorks(old(script), old(world), purge)
      ensures end.Kept? ==> world == old(world) && acts == old(acts)
      ensures !purge ==> world.volume == old(world.volume)
      ensures world.volume == old(world.volume) || (world.volume == NoVolume && world.container.None?)
      ensures end.Deleted? && Alive() && !purge ==>
                world.InPhase(ClusterPhase.Stopped) && Stored(world) == Stored(old(world))
      ensures end.Deleted? && Alive() && purge ==> world.cluster.None? && world.instance.None?
      ensures end.Deleted? && Alive() && !purge && old(world.instance).Some? ==>
                world.instance == Some(InstancePhase.Stopped)
      ensures end.Deleted? && Alive() ==> acts == old(acts) + Removal(old(world), purge)
      ensures end.Deleted? && old(world.instance).Some? ==> world.container.None? && (purge ==> world.volume == NoVolume)
      ensures old(world.instance).None? ==> world.container == old(world.container) && world.volume == old(world.volume)
      ensures world.InPhase(ClusterPhase.Running) ==> old(world).InPhase(ClusterPhase.Running)
    {
      if world.cluster.None? { return Kept; }
      if purge && Holding() != [] { return Kept; }
      var known := world.instance.Some?;
      if known {
        var ok := RemoveInstance(purge);
        if !ok { return Interrupted; }
      }
      // The network may outlive the cluster, so a refusal to remove it is ignored.
      var _ := Ask();
      if purge {
        Record(DropCluster);
      } else {
        if known {
          Record(PutInstance(InstancePhase.Stopped));
        }
        Record(SetPhase(ClusterPhase.Stopped, world.cluster.value.resolved));
      }
      return Deleted;
    }

    /** The container, and for a purge the volume. */
    method RemoveInstance(purge: bool) returns (ok: bool)
      requires Valid() && world.instance.Some?
      modifies `world, `script, `steps, `acts
      ensures Valid()
      ensures world == old(world).(container := world.container, volume := world.volume)
      ensures ok <==> RemovalWorks(old(script), old(world), purge)
      ensures !purge ==> world.volume == old(world.volume)
      ensures world.volume == old(world.volume) || (world.volume == NoVolume && world.container.None?)
      ensures ok ==> world.container.None? && (purge ==> world.volume == NoVolume)
      ensures ok ==> acts == old(acts) + Removal(old(world), purge)
    {
      ok := Ask();
      if !ok { return; }
      if world.container.Some? {
        ok := StopAndRemove();
        if !ok { return; }
      }
      if purge {
        ok := Podman(RemoveVolume);
      }
    }

    // ---- boot recovery -----------------------------------------------

    /** Put back what was running: start a stopped container, if both phases allow it. */
    method ResumeInstance(dryRun: bool) returns (action: ResumeAction)
      requires Valid() && world.cluster.Some? && world.instance.Some?
      modifies `world, `script, `steps, `acts
      ensures Valid()
      ensures dryRun ==> world == old(world) && acts == old(acts)
      ensures world.cluster == old(world.cluster)
      ensures old(world.volume).Data? ==> world.volume == old(world.volume)
      ensures acts != old(acts) || world != old(world) ==>
                && old(world).InPhase(ClusterPhase.Running) && !old(world.instance).value.BlocksRestart()
                && old(world).ContainerMatches(old(world.cluster).value.resolved)
                && old(world).Readable(old(world.cluster).value.resolved)
      ensures action == (if !Fine(old(script), 0) then FailedToStart
                         else match Decide(old(world).cluster.value.phase, old(world).instance.value, ProbeOf(old(world)))
                           case Adopt => Adopted
                           case Skip => Skipped
                           case Missing => MissingContainer
                           case Start => if dryRun then WouldStart
                                         else if Fine(old(script), 1) && Fine(old(script), 2) then Started
                                         else FailedToStart)
      ensures action == Started ==> ServerUp(world)
    {
      var ok := Ask();
      if !ok { return FailedToStart; }
      match Decide(world.cluster.value.phase, world.instance.value, ProbeOf(world)) {
        case Adopt => return Adopted;
        case Skip => return Skipped;
        case Missing => return MissingContainer;
        case Start =>
          var portFree := Ask();
          if dryRun { return WouldStart; }
          if !portFree { return FailedToStart; }
          ok := Podman(StartContainer);
          if !ok { return FailedToStart; }
          var _ := WaitReady();
          return Started;
      }
    }

    // ---- whole runs --------------------------------------------------

    /** What happens to the host from outside: a reboot, a lost registry, a hold reaching its deadline. */
    method Outside(event: Event)
      requires Valid() && (event.Reboot? || event.RegistryLost? || event.PoolersApplied? || event.HoldExpires?)
      modifies `world, `steps, `paused, `poolers
      ensures Valid() && world.volume == old(world.volume)
      ensures world.InPhase(ClusterPhase.Running) ==> old(world).InPhase(ClusterPhase.Running)
    {
      match event {
        case Reboot => Write(StopContainer);
        case RegistryLost => Write(LoseRegistry);
        case PoolersApplied(now) => poolers := now;
        case HoldExpires(pooler) => paused := paused - FlagsOf(pooler, cluster);
        case _ =>
      }
    }

    /**
      Any sequence of operations and outside events, each operation with its own
      script and its own meaning of image names. Every state on the way is safe.
    */
    method Run(turns: seq<Turn>)
      requires Valid()
      modifies this
      ensures Valid()
      ensures forall i :: 0 <= i <= |steps| ==> Safe(Exec(start, steps[..i]))
      ensures (forall t :: t in turns ==> KeepsData(t.event)) && old(world.volume).Data? ==>
                world.volume == old(world.volume)
    {
      for n := 0 to |turns|
        invariant Valid()
        invariant (forall t :: t in turns ==> KeepsData(t.event)) && old(world.volume).Data? ==>
                    world.volume == old(world.volume)
      {
        script := turns[n].script;
        match turns[n].event {
          case OnApply(manifest, resolve, recreate, wait) => var _ := Apply(manifest, resolve, recreate, wait);
          case OnUpgrade(toImage, resolve, check) => var _ := Upgrade(toImage, resolve, check);
          case OnDelete(purge) => var _ := Delete(purge);
          case OnResume(dryRun) =>
            if world.cluster.Some? && world.instance.Some? {
              var _ := ResumeInstance(dryRun);
            }
          case _ => Outside(turns[n].event);
        }
      }
      forall i | 0 <= i <= |steps| ensures Safe(Exec(start, steps[..i])) {
        EveryPrefixIsSafe(start, steps, i);
      }
    }

    /**
      Whatever happened before, and wherever it was cut short, one apply whose calls
      all succeed repairs it: it converges, or the image cannot read the data.
    */
    method RunThenApply(turns: seq<Turn>, manifest: Manifest, resolve: string -> Image, wait: bool, last: seq<Outcome>)
      returns (end: ApplyEnd)
      requires Valid()
      modifies this
      ensures Valid()
      ensures AllDone(last, 0, 3 * |Holding()| + 19) ==>
                if end == Applied then Converged(world, manifest, resolve(manifest.imageName))
                else end.Refused? && !world.Readable(resolve(manifest.imageName))
      ensures && AllDone(last, 0, 3 * |Holding()| + 19)
              && (forall t :: t in turns ==> KeepsData(t.event))
              && old(world.volume) == Data(resolve(manifest.imageName).version) ==>
                end == Applied
    {
      Run(turns);
      script := last;
      FaultFreeApplyWorks(script, world, manifest, resolve(manifest.imageName), true, wait, |Holding()|);
      end := Apply(manifest, resolve, true, wait);
    }

    /**
      An upgrade that stopped inside its window before it let anyone go, and was not
      killed, and then the way out: apply what is recorded. With no failing call that
      converges, and every pool of the cluster is still paused.
    */
    method UpgradeThenApply(toImage: string, resolve: string -> Image, check: bool, recreate: bool, wait: bool,
                            last: seq<Outcome>) returns (end: UpgradeEnd, after: ApplyEnd)
      requires Valid()
      modifies `world, `script, `steps, `acts, `paused
      ensures Valid()
      ensures !end.NotStarted? <==>
                MayStart(old(world), TargetOf(old(world), toImage), resolve) && AllDone(old(script), 0, 4)
      ensures end.HoldRefused? <==> !end.NotStarted? && !AllDone(old(script), 5, |Holding()|)
      ensures !end.NotStarted? && !end.HoldRefused? ==>
                EndsAs(old(script), 5 + |Holding()|, old(world.instance).Some?, |Holding()|, check, end)
      ensures var manifest := if check then Stored(old(world)) else TargetOf(old(world), toImage);
              end == Stuck(true) && |old(script)| > 23 + 3 * |Holding()| && AllDone(last, 0, 3 * |Holding()| + 19) ==>
                && after == Applied && Converged(world, manifest, resolve(manifest.imageName))
                && Flags(Holding(), cluster) <= paused
    {
      hide AllDone, EndsAs, Fine, GivenUp, LetsGo, Window, Flags, LeftPaused, OnlyFlags, Legal, Exec, Differs,
           ApplyWorks, ApplyCalls;
      end := Upgrade(toImage, resolve, check);
      var manifest := Stored(world);
      script := last;
      ghost var image := resolve(manifest.imageName);
      FaultFreeApplyWorks(script, world, manifest, image, recreate, wait, |Holding()|);
      after := Apply(manifest, resolve, recreate, wait);
    }
  }

  /** The poolers that one program has paused, in the order it paused them. */
  class PoolerHold {
    const pgpod: Pgpod
    var held: seq<Pooler>

    constructor (pgpod: Pgpod)
      ensures this.pgpod == pgpod && held == []
    {
      this.pgpod := pgpod;
      held := [];
    }

    /**
      Pause every pooler fronting the cluster. It succeeds exactly if every pause
      does. If one does not, the first being the one at `at`, those before it are sent
      resume, in order, and the hold is given up; what the failed pause itself reached
      stays paused.
    */
    method Acquire() returns (ok: bool, at: nat)
      requires held == []
      modifies this, pgpod`script, pgpod`acts, pgpod`paused
      ensures ok <==> AllDone(old(pgpod.script), 0, |pgpod.Holding()|)
      ensures held == if ok then pgpod.Holding() else []
      ensures ok ==> pgpod.acts == old(pgpod.acts) + Sends(Pause, held)
      ensures ok ==> pgpod.paused == old(pgpod.paused) + Flags(held, pgpod.cluster)
      ensures !ok ==> at < |pgpod.Holding()| && AllDone(old(pgpod.script), 0, at) && !Fine(old(pgpod.script), at)
      ensures !ok ==>
                pgpod.paused == LeftPaused(old(pgpod.paused), pgpod.Holding(), pgpod.cluster, old(pgpod.script), 0, at)
      ensures !ok && pgpod.Alive() ==> pgpod.acts == old(pgpod.acts) + GivenUp(pgpod.Holding(), at)
      ensures OnlyFlags(old(pgpod.paused), pgpod.paused, pgpod.Holding(), pgpod.cluster)
      ensures pgpod.script == From(old(pgpod.script), if ok then |pgpod.Holding()| else at + 1 + at)
    {
      hide AfterResumes, Flags, Reached;
      ok, at := PauseEach();
      if !ok {
        ghost var poolers := pgpod.Holding();
        FlagsPrefix(poolers, pgpod.cluster, at);
        ResumesFurther(pgpod.paused, poolers[..at], pgpod.cluster, old(pgpod.script), at + 1, 0);
        FromFurther(old(pgpod.script), at + 1, at);
        Release();
        Associate(old(pgpod.acts), Sends(Pause, poolers[..at + 1]), Sends(Resume, poolers[..at]));
      }
    }

    /** The pauses alone: each pooler that took one joins the hold, and `at` is the first that did not. */
    method PauseEach() returns (ok: bool, at: nat)
      requires held == []
      modifies this, pgpod`script, pgpod`acts, pgpod`paused
      ensures ok <==> AllDone(old(pgpod.script), 0, |pgpod.Holding()|)
      ensures ok ==> held == pgpod.Holding()
      ensures ok ==> pgpod.acts == old(pgpod.acts) + Sends(Pause, held)
      ensures ok ==> pgpod.paused == old(pgpod.paused) + Flags(held, pgpod.cluster)
      ensures !ok ==> at < |pgpod.Holding()| && held == pgpod.Holding()[..at]
      ensures !ok ==> AllDone(old(pgpod.script), 0, at) && !Fine(old(pgpod.script), at)
      ensures !ok && pgpod.Alive() ==> pgpod.acts == old(pgpod.acts) + Sends(Pause, pgpod.Holding()[..at + 1])
      ensures !ok ==> pgpod.paused == old(pgpod.paused) + Flags(held, pgpod.cluster)
                                      + Reached(pgpod.Holding()[at], pgpod.cluster, OutcomeAt(old(pgpod.script), at))
      ensures OnlyFlags(old(pgpod.paused), pgpod.paused, pgpod.Holding(), pgpod.cluster)
      ensures pgpod.script == From(old(pgpod.script), if ok then |pgpod.Holding()| else at + 1)
    {
      var poolers := pgpod.Holding();
      ok, at := true, 0;
      FromFurther(old(pgpod.script), 0, 0);
      hide Reached, From, OutcomeAt, Rest, Fine, AllDone, FlagsOf;
      NothingToDo(old(pgpod.script));
      while at < |poolers|
        invariant 0 <= at <= |poolers| && held == poolers[..at]
        invariant pgpod.acts == old(pgpod.acts) + Sends(Pause, held)
        invariant pgpod.paused == old(pgpod.paused) + Flags(held, pgpod.cluster)
        invariant pgpod.script == From(old(pgpod.script), at) && AllDone(old(pgpod.script), 0, at)
      {
        FlagsGrow(poolers, pgpod.cluster, at);
        FlagsPrefix(poolers, pgpod.cluster, at);
        OneMore(Pause, poolers, pgpod.cluster, at);
        OneMoreCall(old(pgpod.script), at);
        EachIsDone(old(pgpod.script), at, |poolers|);
        Associate(old(pgpod.acts), Sends(Pause, held), [Sent(Pause, poolers[at].name)]);
        ok := pgpod.Control(poolers[at], Pause);
        if !ok {
          return;
        }
        held := held + [poolers[at]];
        at := at + 1;
      }
      assert poolers[..at] == poolers;
    }

    /** Resume each held pooler, whether or not the one before could be. */
    method Release()
      modifies this, pgpod`script, pgpod`acts, pgpod`paused
      ensures held == []
      ensures pgpod.Alive() ==> pgpod.acts == old(pgpod.acts) + Sends(Resume, old(held))
      ensures pgpod.paused == AfterResumes(old(pgpod.paused), old(held), pgpod.cluster, old(pgpod.script), 0)
      ensures OnlyFlags(old(pgpod.paused), pgpod.paused, old(held), pgpod.cluster)
      ensures pgpod.script == From(old(pgpod.script), |old(held)|)
    {
      var poolers := held;
      held := [];
      var i := 0;
      FromFurther(old(pgpod.script), 0, 0);
      NoFlagChanges(pgpod.paused, poolers, pgpod.cluster);
      hide Reached, From, OutcomeAt, Rest, FlagsOf, Flags, Sends, Fine, OnlyFlags, OnlyFlagsOf, PoolsFor, Fronting;
      while i < |poolers|
        invariant 0 <= i <= |poolers| && held == []
        invariant pgpod.Alive() ==> pgpod.acts == old(pgpod.acts) + Sends(Resume, poolers[..i])
        invariant OnlyFlags(old(pgpod.paused), pgpod.paused, poolers, pgpod.cluster)
        invariant pgpod.paused == AfterResumes(old(pgpod.paused), poolers[..i], pgpod.cluster, old(pgpod.script), 0)
        invariant pgpod.script == From(old(pgpod.script), i)
      {
        OneMore(Resume, poolers, pgpod.cluster, i);
        assert poolers[..i + 1][..i] == poolers[..i];
        OneMoreCall(old(pgpod.script), i);
        Associate(old(pgpod.acts), Sends(Resume, poolers[..i]), [Sent(Resume, poolers[i].name)]);
        ghost var was := pgpod.paused;
        var _ := pgpod.Control(poolers[i], Resume);
        ReachedIsOnlyThose(was, poolers[i], pgpod.cluster, OutcomeAt(old(pgpod.script), i));
        OnePoolersFlags(old(pgpod.paused), was, pgpod.paused, poolers, pgpod.cluster, i);
        i := i + 1;
      }
      assert poolers[..i] == poolers;
    }

    /**
      Recycle backends, then release: `sent` calls are made. It stops at the first
      that fails, and the poolers after that one are sent nothing.
    */
    method ReleaseAfterRecreate() returns (ok: bool, ghost sent: nat)
      modifies this, pgpod`script, pgpod`acts, pgpod`paused
      ensures ok <==> AllDone(old(pgpod.script), 0, 2 * |old(held)|)
      ensures held == [] && sent <= |Releases(old(held))|
      ensures ok || pgpod.Alive() ==> pgpod.acts == old(pgpod.acts) + Releases(old(held))[..sent]
      ensures ok ==> sent == |Releases(old(held))|
      ensures ok ==> pgpod.paused == old(pgpod.paused) - Flags(old(held), pgpod.cluster)
      ensures OnlyFlags(old(pgpod.paused), pgpod.paused, old(held), pgpod.cluster)
      ensures ok ==> pgpod.script == From(old(pgpod.script), 2 * |old(held)|)
      ensures |pgpod.script| + 2 * |old(held)| >= |old(pgpod.script)|
      ensures old(pgpod.script) == [] ==> pgpod.script == []
    {
      var poolers := held;
      held := [];
      ok, sent := true, 0;
      ghost var acts, paused, script := pgpod.acts, pgpod.paused, pgpod.script;
      LetGoNone(poolers, pgpod.cluster, acts, paused, script);
      hide OutcomeAt, Fine, From, AllDone, FlagsOf, Flags, Releases, OnlyFlags, OnlyFlagsOf, LetGoSoFar;
      for i := 0 to |poolers|
        invariant held == []
        invariant LetGoSoFar(poolers, pgpod.cluster, acts, paused, script, i, sent, pgpod.acts, pgpod.paused, pgpod.script)
      {
        ghost var acts1, paused1, script1 := pgpod.acts, pgpod.paused, pgpod.script;
        ghost var made;
        ok, made := ReleaseOne(poolers[i]);
        LetGoNext(poolers, pgpod.cluster, acts, paused, script, i, sent, acts1, paused1, script1,
                  ok, made, pgpod.acts, pgpod.paused, pgpod.script);
        sent := sent + made;
        if !ok { return; }
      }
      LetGoAll(poolers, pgpod.cluster, acts, paused, script, sent, pgpod.acts, pgpod.paused, pgpod.script);
    }

    method ReleaseOne(pooler: Pooler) returns (ok: bool, ghost made: nat)
      modifies pgpod`script, pgpod`acts, pgpod`paused
      ensures ok <==> AllDone(old(pgpod.script), 0, 2)
      ensures made <= 2 && (ok ==> made == 2)
      ensures ok || pgpod.Alive() ==>
                pgpod.acts == old(pgpod.acts) + [Sent(Reconnect, pooler.name), Sent(Resume, pooler.name)][..made]
      ensures ok ==> pgpod.paused == old(pgpod.paused) - FlagsOf(pooler, pgpod.cluster)
      ensures OnlyFlagsOf(old(pgpod.paused), pgpod.paused, pooler, pgpod.cluster)
      ensures ok ==> pgpod.script == From(old(pgpod.script), 2)
      ensures |pgpod.script| + 2 >= |old(pgpod.script)|
      ensures old(pgpod.script) == [] ==> pgpod.script == []
    {
      assert AllDone(pgpod.script, 0, 2) ==> Fine(pgpod.script, 0) && Fine(pgpod.script, 1);
      made := 1;
      ok := pgpod.Control(pooler, Reconnect);
      if ok {
        made := 2;
        ok := pgpod.Control(pooler, Resume);
      }
    }
  }

  /** With no failing call an apply of a readable image has all it needs, unless it has to recreate and may not. */
  lemma FaultFreeApplyWorks(script: seq<Outcome>, w: World, manifest: Manifest, image: Image, recreate: bool, wait: bool, h: nat)
    ensures var n, way := ApplyCalls(w, manifest, image, recreate, wait, h), WayOf(w, manifest, image, recreate);
            && n <= 3 * h + 19 && (recreate ==> way != Diverge)
            && (AllDone(script, 0, 3 * h + 19) ==>
                  && |script| >= n
                  && (w.Readable(image) && way != Diverge <==> ApplyWorks(script, w, manifest, image, recreate, wait, h)))
  {
    var last := 3 * h + 18;
    assert AllDone(script, 0, 3 * h + 19) ==> Fine(script, last) && |script| > last;
  }

  /** And so has an upgrade that got through its plan. */
  lemma FaultFreeUpgradeWorks(script: seq<Outcome>, h: nat, check: bool, end: UpgradeEnd)
    requires AllDone(script, 0, 3 * h + 18)
    requires EndsAs(script, 5 + h, true, h, check, end)
    ensures end == if check then Checked(true) else Upgraded
  {
  }

  lemma MadeToMatch(manifest: Manifest, image: Image)
    ensures !Differs(Container(true, image, manifest.agentSpec, manifest.rest), manifest, image)
  {
  }

  lemma StartedDiffersAlike(c: Container, manifest: Manifest, image: Image)
    ensures Differs(c.(running := true), manifest, image) <==> Differs(c, manifest, image)
    ensures !Differs(c, manifest, image) ==> c.image == image
  {
  }

  /** What an apply does depends on the container alone. */
  lemma SameWay(v: World, w: World, manifest: Manifest, image: Image, recreate: bool)
    requires v.container == w.container
    ensures WayOf(v, manifest, image, recreate) == WayOf(w, manifest, image, recreate)
    ensures RestAfter(v, manifest, image) == RestAfter(w, manifest, image)
  {
  }

  // ---- entries, one by one -----------------------------------------

  lemma AllDoneIsEach(script: seq<Outcome>, n: nat)
    requires 1 <= n <= 4
    ensures AllDone(script, 0, n) <==> && Fine(script, 0) && (n > 1 ==> Fine(script, 1)) && (n > 2 ==> Fine(script, 2))
                                       && (n > 3 ==> Fine(script, 3))
  {
  }

  lemma FourIsEach(script: seq<Outcome>, i: nat)
    ensures AllDone(script, i, 4)
       <==> Fine(script, i) && Fine(script, i + 1) && Fine(script, i + 2) && Fine(script, i + 3)
  {
  }

  lemma StartIsEach(script: seq<Outcome>, known: bool, occupied: bool)
    ensures StartsAt(script, 0, known, occupied)
       <==> known && Fine(script, 0) && Fine(script, 1)
            && if occupied then Fine(script, 3) && Fine(script, 4) && Fine(script, 5) else Fine(script, 2) && Fine(script, 3)
  {
  }

  /** What is left for each part of an apply, seen from its start. */
  lemma RecreateOffsets(script: seq<Outcome>, h: nat, known: bool)
    ensures var n := if known then 6 else 5;
            && (AllDone(From(script, h), 1, 4) <==> AllDone(script, h + 1, 4))
            && (AllDone(From(script, h), n, 2 * h) <==> AllDone(script, h + n, 2 * h))
            && From(From(script, h), 2 * h + n) == From(script, 3 * h + n)
  {
    var n := if known then 6 else 5;
    AllDoneFurther(script, h, 1, 4);
    AllDoneFurther(script, h, n, 2 * h);
    FromFurther(script, h, 2 * h + n);
  }

  lemma WayFurther(script: seq<Outcome>, n: nat, i: nat, way: Way, h: nat)
    ensures WayWorks(From(script, n), i, way, h) <==> WayWorks(script, n + i, way, h)
  {
    FineFurther(script, n, i);
    AllDoneFurther(script, n, i, WayCalls(way, h));
    AllDoneFurther(script, n, i, h);
    AllDoneFurther(script, n, i + h + 1, 4);
    AllDoneFurther(script, n, i + h + 6, 2 * h);
  }

  lemma InstanceOffsets(script: seq<Outcome>, way: Way, h: nat)
    ensures Rest(script) == From(script, 1) && Rest(From(script, 1)) == From(script, 2) && Rest(From(script, 2)) == From(script, 3)
    ensures Fine(From(script, 2), 0) <==> Fine(script, 2)
    ensures WayWorks(From(script, 3), 0, way, h) <==> WayWorks(script, 3, way, h)
    ensures From(From(script, 3), WayCalls(way, h)) == From(script, 3 + WayCalls(way, h))
    ensures Rest(From(script, 3 + WayCalls(way, h))) == From(script, 4 + WayCalls(way, h))
    ensures Rest(From(script, 3)) == From(script, 4)
  {
    hide WayWorks, WayCalls;
    FromFurther(script, 0, 0);
    FromFurther(script, 1, 0);
    FromFurther(script, 2, 0);
    FromFurther(script, 3, WayCalls(way, h));
    FromFurther(script, 3 + WayCalls(way, h), 0);
    FineFurther(script, 2, 0);
    WayFurther(script, 3, 0, way, h);
  }

  lemma RecordedOffsets(script: seq<Outcome>, way: Way, h: nat)
    ensures Rest(script) == From(script, 1)
    ensures (Fine(From(script, 1), 0) <==> Fine(script, 1)) && (Fine(From(script, 1), 2) <==> Fine(script, 3))
    ensures WayWorks(From(script, 1), 3, way, h) <==> WayWorks(script, 4, way, h)
    ensures From(From(script, 1), 4 + WayCalls(way, h)) == From(script, 5 + WayCalls(way, h))
    ensures Fine(From(script, 5 + WayCalls(way, h)), 0) <==> Fine(script, 5 + WayCalls(way, h))
    ensures From(From(script, 5 + WayCalls(way, h)), 2) == From(script, 7 + WayCalls(way, h))
  {
    hide WayWorks, WayCalls;
    FromFurther(script, 0, 0);
    FineFurther(script, 1, 0);
    FineFurther(script, 1, 2);
    WayFurther(script, 1, 3, way, h);
    FromFurther(script, 1, 4 + WayCalls(way, h));
    FromFurther(script, 5 + WayCalls(way, h), 2);
    FineFurther(script, 5 + WayCalls(way, h), 0);
  }

  lemma RecordedFurther(script: seq<Outcome>, m: nat, way: Way, h: nat, wait: bool)
    ensures RecordedWorks(From(script, m), 0, way, h, wait) <==> RecordedWorks(script, m, way, h, wait)
  {
    hide WayWorks, WayCalls, From, Fine;
    FineFurther(script, m, 0);
    FineFurther(script, m, 1);
    FineFurther(script, m, 3);
    FineFurther(script, m, 5 + WayCalls(way, h));
    WayFurther(script, m, 4, way, h);
  }

  lemma ApplyOffsets(script: seq<Outcome>, n: nat, way: Way, h: nat, wait: bool)
    ensures Rest(script) == From(script, 1)
    ensures AllDone(From(script, 1), 0, n) <==> AllDone(script, 1, n)
    ensures From(From(script, 1), n) == From(script, n + 1)
    ensures RecordedWorks(From(script, n + 1), 1, way, h, wait) <==> RecordedWorks(script, n + 2, way, h, wait)
  {
    hide From, Rest, RecordedWorks, AllDone;
    FromFurther(script, 0, 0);
    AllDoneFurther(script, 1, 0, n);
    FromFurther(script, 1, n);
    FromFurther(script, n + 1, 1);
    RecordedFurther(From(script, n + 1), 1, way, h, wait);
    RecordedFurther(script, n + 2, way, h, wait);
  }

  lemma AnswersFurther(script: seq<Outcome>, n: nat, i: nat, known: bool, occupied: bool)
    ensures AnswersAt(From(script, n), i, known, occupied) <==> AnswersAt(script, n + i, known, occupied)
  {
    hide From, AllDone, Fine;
    AllDoneFurther(script, n, i, 2);
    AllDoneFurther(script, n, i + 3, 3);
    AllDoneFurther(script, n, i + 2, 2);
    FineFurther(script, n, i + StartCalls(occupied));
  }

  lemma WindowOffsets(script: seq<Outcome>, known: bool, h: nat)
    ensures AnswersAt(From(script, 4), 0, known, false) <==> AnswersAt(script, 4, known, false)
    ensures AnswersAt(From(script, 5), 0, known, false) <==> AnswersAt(script, 5, known, false)
    ensures AllDone(From(script, 4), 8, 2 * h) <==> AllDone(script, 12, 2 * h)
    ensures AllDone(From(script, 5), 8, 2 * h) <==> AllDone(script, 13, 2 * h)
    ensures Rest(From(script, 4)) == From(script, 5)
  {
    hide From, Rest, AllDone, AnswersAt;
    AnswersFurther(script, 4, 0, known, false);
    AnswersFurther(script, 5, 0, known, false);
    AllDoneFurther(script, 4, 8, 2 * h);
    AllDoneFurther(script, 5, 8, 2 * h);
    FromFurther(script, 4, 0);
  }

  /** Entries after a start: a question, its answer if there is one, a phase, and the releases. */
  lemma LetGoOffsets(script: seq<Outcome>, n: nat, h: nat)
    ensures Fine(From(script, n), 0) <==> Fine(script, n)
    ensures Rest(From(From(script, n), if Fine(script, n) then 2 else 1)) == From(script, n + if Fine(script, n) then 3 else 2)
    ensures LetGoAt(script, n, h) <==> AllDone(From(script, n + if Fine(script, n) then 3 else 2), 0, 2 * h)
  {
    hide From, Rest, AllDone, Fine;
    var m := if Fine(script, n) then 2 else 1;
    FineFurther(script, n, 0);
    FromFurther(script, n, m);
    FromFurther(script, n + m, 0);
    AllDoneFurther(script, n + m + 1, 0, 2 * h);
  }

  lemma BackOffsets(script: seq<Outcome>, n: nat, known: bool, there: bool, h: nat)
    ensures StartsAt(From(script, n), 0, known, there) <==> StartsAt(script, n, known, there)
    ensures LetGoAt(From(script, n), StartCalls(there), h) <==> LetGoAt(script, n + StartCalls(there), h)
  {
    StartsFurther(script, n, 0, known, there);
    LetGoFurther(script, n, StartCalls(there), h);
  }

  lemma StartsFurther(script: seq<Outcome>, n: nat, i: nat, known: bool, occupied: bool)
    ensures StartsAt(From(script, n), i, known, occupied) <==> StartsAt(script, n + i, known, occupied)
  {
    hide From, AllDone;
    AllDoneFurther(script, n, i, 2);
    AllDoneFurther(script, n, i + 3, 3);
    AllDoneFurther(script, n, i + 2, 2);
  }

  /** A hold and what follows it, `i` entries into what is left after `n`. */
  lemma PlanOffsets(script: seq<Outcome>, n: nat, i: nat, known: bool, h: nat, check: bool, end: UpgradeEnd)
    ensures AllDone(From(script, n), i, h) <==> AllDone(script, n + i, h)
    ensures end.HoldRefused? ==>
              && (AllDone(From(script, n), i, end.at) <==> AllDone(script, n + i, end.at))
              && (Fine(From(script, n), i + end.at) <==> Fine(script, n + i + end.at))
    ensures EndsAs(From(script, n), i + h, known, h, check, end) <==> EndsAs(script, n + i + h, known, h, check, end)
  {
    hide From, AllDone, Fine, EndsAs;
    HoldFurther(script, n, i, h, if end.HoldRefused? then end.at else 0);
    EndsFurther(script, n, i + h, known, h, check, end);
  }

  lemma EndsBack(script: seq<Outcome>, known: bool, h: nat, check: bool, end: UpgradeEnd)
    requires !AllDone(script, 0, 4) && (end.RolledBack? || end.Down?) && GoesBack(script, 0, known, h, end)
    ensures EndsAs(script, 0, known, h, check, end)
  {
    hide AllDone, AnswersAt, GoesBack;
  }

  lemma EndsChecked(script: seq<Outcome>, known: bool, h: nat, end: UpgradeEnd)
    requires AllDone(script, 0, 4) && (end.Checked? || end == Stuck(true))
    requires end == Stuck(true) <==> !AnswersAt(script, 4, known, false)
    requires end.Checked? ==> (end.released <==> AllDone(script, 12, 2 * h))
    ensures EndsAs(script, 0, known, h, true, end)
  {
    hide AllDone, AnswersAt, GoesBack;
  }

  lemma EndsUpgraded(script: seq<Outcome>, known: bool, h: nat, end: UpgradeEnd)
    requires AllDone(script, 0, 4) && (end.Upgraded? || end.Stuck?)
    requires end == Stuck(true) <==> !AnswersAt(script, 5, known, false)
    requires end.Upgraded? <==> AnswersAt(script, 5, known, false) && AllDone(script, 13, 2 * h)
    ensures EndsAs(script, 0, known, h, false, end)
  {
    hide AllDone, AnswersAt, GoesBack;
  }

  lemma BackInWindow(before: World, after: World, target: Manifest, oldImage: Image, newImage: Image, check: bool,
                     end: UpgradeEnd, alive: bool)
    requires before.cluster.Some? && after.cluster.Some? && (end.RolledBack? || end.Down?)
    requires Stored(after) == Stored(before) && after.volume == before.volume
    requires alive ==> if end.RolledBack? then Serving(after, Stored(before), oldImage) else after.InPhase(ClusterPhase.Failed)
    requires after.InPhase(ClusterPhase.Running) ==> after == before || Serving(after, Stored(before), oldImage)
    ensures InWindow(before, after, target, oldImage, newImage, check)
    ensures alive ==> WindowEnds(before, after, target, oldImage, newImage, check, end)
  {
  }

  lemma CheckedInWindow(before: World, after: World, target: Manifest, oldImage: Image, newImage: Image,
                        end: UpgradeEnd, alive: bool)
    requires before.cluster.Some? && after.cluster.Some? && (end.Checked? || end == Stuck(true))
    requires Stored(after) == Stored(before) && after.volume == before.volume
    requires alive ==>
               if end.Checked? then Serving(after, Stored(before), oldImage)
               else after.InPhase(Upgrading)
                    && (after.container.Some? ==> !Differs(after.container.value, Stored(before), oldImage))
    requires after.InPhase(ClusterPhase.Running) ==> Serving(after, Stored(before), oldImage)
    ensures InWindow(before, after, target, oldImage, newImage, true)
    ensures alive ==> WindowEnds(before, after, target, oldImage, newImage, true, end)
  {
    hide Differs;
  }

  lemma UpgradedInWindow(before: World, after: World, target: Manifest, oldImage: Image, newImage: Image,
                         end: UpgradeEnd, alive: bool)
    requires before.cluster.Some? && after.cluster.Some? && (end.Upgraded? || end.Stuck?)
    requires after.volume == Data(newImage.version) && (Stored(after) == Stored(before) || Stored(after) == target)
    requires alive ==>
               if end.Upgraded? then Serving(after, target, newImage)
               else after.InPhase(Upgrading) && Stored(after) == target
                    && (after.container.Some? ==> !Differs(after.container.value, target, newImage))
    requires after.InPhase(ClusterPhase.Running) ==> Serving(after, target, newImage)
    ensures InWindow(before, after, target, oldImage, newImage, false)
    ensures alive ==> WindowEnds(before, after, target, oldImage, newImage, false, end)
  {
    hide Differs;
  }

  lemma JobThenServer(acts: seq<Act>, holding: seq<Pooler>, target: Manifest, image: Image)
    ensures (acts + [Asked(StopContainer), Asked(RemoveContainer), Asked(PgUpgrade(image.version))])
            + OnceUpgraded(holding, target, image)
         == acts + OnceClosed(holding, target, image)
  {
    hide OnceUpgraded;
  }

  lemma LetGoFurther(script: seq<Outcome>, n: nat, i: nat, h: nat)
    ensures LetGoAt(From(script, n), i, h) <==> LetGoAt(script, n + i, h)
  {
    hide From, AllDone, Fine;
    FineFurther(script, n, i);
    AllDoneFurther(script, n, i + if Fine(script, n + i) then 3 else 2, 2 * h);
  }

  lemma BackFurther(script: seq<Outcome>, n: nat, i: nat, known: bool, h: nat, end: UpgradeEnd)
    ensures GoesBack(From(script, n), i, known, h, end) <==> GoesBack(script, n + i, known, h, end)
  {
    hide From, StartsAt, LetGoAt, Fine;
    FineFurther(script, n, i);
    FineFurther(script, n, i + 1);
    FineFurther(script, n, i + 2);
    var next, there := i + FirstFailure(script, n + i) + 1, StillThere(script, n + i);
    StartsFurther(script, n, next, known, there);
    LetGoFurther(script, n, next + StartCalls(there), h);
  }

  lemma EndsFurther(script: seq<Outcome>, n: nat, i: nat, known: bool, h: nat, check: bool, end: UpgradeEnd)
    ensures EndsAs(From(script, n), i, known, h, check, end) <==> EndsAs(script, n + i, known, h, check, end)
  {
    hide From, AllDone, AnswersAt, GoesBack;
    AllDoneFurther(script, n, i, 4);
    BackFurther(script, n, i, known, h, end);
    AnswersFurther(script, n, i + 4, known, false);
    AnswersFurther(script, n, i + 5, known, false);
    AllDoneFurther(script, n, i + 12, 2 * h);
    AllDoneFurther(script, n, i + 13, 2 * h);
  }

  /** A hold that takes its entries after `n` others, and is given up at `at` or not at all. */
  lemma HoldFurther(script: seq<Outcome>, n: nat, i: nat, h: nat, at: nat)
    ensures AllDone(From(script, n), i, h) <==> AllDone(script, n + i, h)
    ensures AllDone(From(script, n), i, at) <==> AllDone(script, n + i, at)
    ensures Fine(From(script, n), i + at) <==> Fine(script, n + i + at)
  {
    hide From, AllDone, Fine;
    AllDoneFurther(script, n, i, h);
    AllDoneFurther(script, n, i, at);
    FineFurther(script, n, i + at);
  }

  /** The entry a call takes after `n` others, and what that says about the process being alive. */
  lemma OneMoreCall(script: seq<Outcome>, n: nat)
    ensures Rest(From(script, n)) == From(script, n + 1)
    ensures OutcomeAt(From(script, n), 0) == OutcomeAt(script, n) && (Fine(From(script, n), 0) <==> Fine(script, n))
    ensures From(script, n + 1) != [] || Fine(script, n) ==> From(script, n) != []
  {
  }

  lemma EachIsDone(script: seq<Outcome>, i: nat, n: nat)
    requires i < n && AllDone(script, 0, i)
    ensures if Fine(script, i) then AllDone(script, 0, i + 1) else !AllDone(script, 0, n)
  {
  }

  lemma NothingToDo(script: seq<Outcome>)
    ensures AllDone(script, 0, 0)
  {
  }

  /** What a release that gets as far as pooler `i` has done. */
  ghost predicate LetGoSoFar(poolers: seq<Pooler>, cluster: string, acts: seq<Act>, paused: set<(string, string)>,
                             script: seq<Outcome>, i: nat, sent: nat, acts1: seq<Act>, paused1: set<(string, string)>,
                             script1: seq<Outcome>)
  {
    && i <= |poolers| && sent == |Releases(poolers[..i])| <= |Releases(poolers)|
    && acts1 == acts + Releases(poolers)[..sent]
    && paused1 == paused - Flags(poolers[..i], cluster)
    && script1 == From(script, 2 * i) && AllDone(script, 0, 2 * i)
    && OnlyFlags(paused, paused1, poolers, cluster)
  }

  lemma LetGoNone(poolers: seq<Pooler>, cluster: string, acts: seq<Act>, paused: set<(string, string)>, script: seq<Outcome>)
    ensures LetGoSoFar(poolers, cluster, acts, paused, script, 0, 0, acts, paused, script)
  {
    FromFurther(script, 0, 0);
    NothingToDo(script);
    NothingReleased(poolers, cluster, acts);
    NoFlagChanges(paused, poolers, cluster);
  }

  lemma LetGoNext(poolers: seq<Pooler>, cluster: string, acts: seq<Act>, paused: set<(string, string)>, script: seq<Outcome>,
                  i: nat, sent: nat, acts1: seq<Act>, paused1: set<(string, string)>, script1: seq<Outcome>,
                  ok: bool, made: nat, acts2: seq<Act>, paused2: set<(string, string)>, script2: seq<Outcome>)
    requires LetGoSoFar(poolers, cluster, acts, paused, script, i, sent, acts1, paused1, script1) && i < |poolers|
    requires (ok <==> AllDone(script1, 0, 2)) && made <= 2 && (ok ==> made == 2)
    requires var two := [Sent(Reconnect, poolers[i].name), Sent(Resume, poolers[i].name)];
             ok || script2 != [] ==> acts2 == acts1 + two[..made]
    requires ok ==> paused2 == paused1 - FlagsOf(poolers[i], cluster) && script2 == From(script1, 2)
    requires OnlyFlagsOf(paused1, paused2, poolers[i], cluster)
    requires |script2| + 2 >= |script1| && (script1 == [] ==> script2 == [])
    ensures sent + made <= |Releases(poolers)| && OnlyFlags(paused, paused2, poolers, cluster)
    ensures ok ==> LetGoSoFar(poolers, cluster, acts, paused, script, i + 1, sent + made, acts2, paused2, script2)
    ensures !ok ==> !AllDone(script, 0, 2 * |poolers|) && |script2| + 2 * |poolers| >= |script|
    ensures !ok && script2 != [] ==> acts2 == acts + Releases(poolers)[..sent + made]
    ensures script == [] ==> script2 == []
  {
    hide AllDone, From, FlagsOf, Flags, Releases, OnlyFlags, OnlyFlagsOf;
    OneMore(Resume, poolers, cluster, i);
    LessAndLess(paused, Flags(poolers[..i], cluster), FlagsOf(poolers[i], cluster));
    TwoMore(script, i, |poolers|);
    OnePoolersFlags(paused, paused1, paused2, poolers, cluster, i);
    ReleasedOneMore(acts, poolers, i, made);
  }

  lemma LetGoAll(poolers: seq<Pooler>, cluster: string, acts: seq<Act>, paused: set<(string, string)>, script: seq<Outcome>,
                 sent: nat, acts1: seq<Act>, paused1: set<(string, string)>, script1: seq<Outcome>)
    requires LetGoSoFar(poolers, cluster, acts, paused, script, |poolers|, sent, acts1, paused1, script1)
    ensures sent == |Releases(poolers)| && acts1 == acts + Releases(poolers)[..sent]
    ensures AllDone(script, 0, 2 * |poolers|) && paused1 == paused - Flags(poolers, cluster)
    ensures script1 == From(script, 2 * |poolers|) && OnlyFlags(paused, paused1, poolers, cluster)
  {
    assert poolers[..|poolers|] == poolers;
  }

  lemma NothingReleased(poolers: seq<Pooler>, cluster: string, acts: seq<Act>)
    ensures Releases(poolers[..0]) == [] && Flags(poolers[..0], cluster) == {} && acts + Releases(poolers)[..0] == acts
    ensures poolers[..|poolers|] == poolers
  {
  }

  /** What was sent once `made` of the two calls of release `i` were. */
  lemma ReleasedOneMore(acts: seq<Act>, poolers: seq<Pooler>, i: nat, made: nat)
    requires i < |poolers| && made <= 2
    ensures var all, sent := Releases(poolers), |Releases(poolers[..i])|;
            && |Releases(poolers[..i + 1])| == sent + 2 <= |all|
            && (acts + all[..sent]) + [Sent(Reconnect, poolers[i].name), Sent(Resume, poolers[i].name)][..made]
               == acts + all[..sent + made]
  {
    var all, sent := Releases(poolers), |Releases(poolers[..i])|;
    OneMore(Resume, poolers, "", i);
    ReleasesPrefix(poolers, i + 1);
    SliceOnward(acts, all, sent, made, Releases(poolers[..i + 1])[sent..]);
  }

  /** The two entries of release `i`, out of `n`. */
  lemma TwoMore(script: seq<Outcome>, i: nat, n: nat)
    requires i < n && AllDone(script, 0, 2 * i)
    ensures AllDone(From(script, 2 * i), 0, 2) <==> AllDone(script, 0, 2 * (i + 1))
    ensures !AllDone(script, 0, 2 * (i + 1)) ==> !AllDone(script, 0, 2 * n)
    ensures From(From(script, 2 * i), 2) == From(script, 2 * (i + 1))
    ensures script == [] ==> From(script, 2 * i) == []
  {
    FromFurther(script, 2 * i, 2);
    AllDoneFurther(script, 2 * i, 0, 2);
    AllDoneInParts(script, 0, 2 * i, 2);
    AllDoneInParts(script, 0, 2 * (i + 1), 2 * (n - i - 1));
  }

  /** Appending the first `m` elements of what follows position `n` of `all`. */
  lemma SliceOnward<T>(a: seq<T>, all: seq<T>, n: nat, m: nat, next: seq<T>)
    requires n <= |all| && m <= |next| && next <= all[n..]
    ensures (a + all[..n]) + next[..m] == a + all[..n + m]
  {
    assert all[..n + m] == all[..n] + next[..m];
  }

  lemma NextCall<T>(a: seq<T>, s: seq<T>, n: nat)
    requires n < |s|
    ensures (a + s[..n]) + [s[n]] == a + s[..n + 1]
    ensures a + s[..0] == a
  {
  }

  lemma Regroup<T>(a: seq<T>, b: seq<T>, c: seq<T>, n: nat)
    requires n <= |c|
    ensures (a + b) + c[..n] == a + (b + c)[..|b| + n]
  {
    assert (b + c)[..|b| + n] == b + c[..n];
  }

  lemma Associate<T>(a: seq<T>, b: seq<T>, c: seq<T>)
    ensures (a + b) + c == a + (b + c)
  {
  }

  /** At most the flags of the given poolers' pools on one cluster differ. */
  ghost predicate OnlyFlags(before: set<(string, string)>, after: set<(string, string)>,
                            poolers: seq<Pooler>, cluster: string)
  {
    forall f :: f !in Flags(poolers, cluster) ==> (f in before <==> f in after)
  }

  lemma OnePoolersFlags(a: set<(string, string)>, b: set<(string, string)>, c: set<(string, string)>,
                        poolers: seq<Pooler>, cluster: string, i: nat)
    requires i < |poolers| && OnlyFlags(a, b, poolers, cluster)
    requires OnlyFlagsOf(b, c, poolers[i], cluster)
    ensures OnlyFlags(a, c, poolers, cluster)
  {
    FlagsGrow(poolers, cluster, i);
  }

  lemma LessAndLess<T>(a: set<T>, b: set<T>, c: set<T>)
    ensures (a - b) - c == a - (b + c)
  {
  }

  lemma NoFlagChanges(paused: set<(string, string)>, poolers: seq<Pooler>, cluster: string)
    ensures OnlyFlags(paused, paused, poolers, cluster)
  {
  }

  /** At most the flags of one pooler's pools on one cluster differ. */
  ghost predicate OnlyFlagsOf(before: set<(string, string)>, after: set<(string, string)>, pooler: Pooler, cluster: string) {
    forall f :: f !in FlagsOf(pooler, cluster) ==> (f in before <==> f in after)
  }

  lemma ReachedIsOnlyThose(before: set<(string, string)>, pooler: Pooler, cluster: string, outcome: Outcome)
    ensures OnlyFlagsOf(before, before - Reached(pooler, cluster, outcome), pooler, cluster)
  {
  }

  lemma {:induction false} FlagsPrefix(poolers: seq<Pooler>, cluster: string, n: nat)
    requires n <= |poolers|
    ensures Flags(poolers[..n], cluster) <= Flags(poolers, cluster)
  {
    if n < |poolers| {
      FlagsPrefix(poolers[..|poolers| - 1], cluster, n);
      assert poolers[..|poolers| - 1][..n] == poolers[..n];
    } else {
      assert poolers[..n] == poolers;
    }
  }

  lemma {:induction false} ReleasesPrefix(poolers: seq<Pooler>, n: nat)
    requires n <= |poolers|
    ensures Releases(poolers[..n]) <= Releases(poolers)
  {
    if n < |poolers| {
      ReleasesPrefix(poolers[..|poolers| - 1], n);
      assert poolers[..|poolers| - 1][..n] == poolers[..n];
    } else {
      assert poolers[..n] == poolers;
    }
  }

  // ---- what the exact contracts above add up to --------------------

  lemma {:induction false} FrontingHasDistinctNames(poolers: seq<Pooler>, cluster: string)
    requires DistinctNames(poolers)
    ensures DistinctNames(Fronting(poolers, cluster))
  {
    if poolers != [] {
      FrontingHasDistinctNames(poolers[1..], cluster);
      var front := Fronting(poolers[1..], cluster);
      forall p | p in front ensures p.name != poolers[0].name {
        FrontingIsExact(poolers[1..], cluster, p);
      }
    }
  }

  predicate DistinctNames(poolers: seq<Pooler>) {
    forall i, j :: 0 <= i < j < |poolers| ==> poolers[i].name != poolers[j].name
  }

  /**
    A hold given up on a cluster none of whose pools was paused, every resume of
    it done: only what the failed pause itself reached stays paused. So no client
    is left waiting exactly if that pause had no effect at all.
  */
  lemma GivenUpHoldLeavesWhatThePauseReached(poolers: seq<Pooler>, cluster: string, script: seq<Outcome>, i: nat, at: nat)
    requires DistinctNames(poolers) && at < |Fronting(poolers, cluster)|
    requires AllDone(script, i + at + 1, at)
    ensures var holding := Fronting(poolers, cluster);
            var left, outcome := LeftPaused({}, holding, cluster, script, i, at), OutcomeAt(script, i + at);
            && left == Reached(holding[at], cluster, outcome)
            && (left == {} <==> outcome == Partly(0))
  {
    var holding := Fronting(poolers, cluster);
    var before, reached := Flags(holding[..at], cluster), Reached(holding[at], cluster, OutcomeAt(script, i + at));
    FrontingHasDistinctNames(poolers, cluster);
    FrontingIsExact(poolers, cluster, holding[at]);
    forall flag | flag in before ensures flag !in reached {
      var p := FlagComesFromAPooler(holding[..at], cluster, flag);
    }
    AllResumed({} + before + reached, holding[..at], cluster, script, i + at + 1);
    assert ({} + before + reached) - before == reached;
  }

  // ---- runs that leave clients waiting -----------------------------

  /** What two image names mean on some host. */
  function Named(name: string): Image {
    if name == "new" then Image("new", Major(18, 0)) else Image("old", Major(16, 0))
  }

  /** A cluster up on the older of the two. */
  function Up(): World {
    World(Some(ClusterRow(Manifest("old", "", ""), ClusterPhase.Running, Named("old"))), Some(InstancePhase.Running),
          Some(Container(true, Named("old"), "", "")), Data(Major(16, 0)))
  }

  function TwoPools(): Pooler {
    Pooler("p", [PoolTarget("a", "c", "", "", 0), PoolTarget("b", "c", "", "", 0)])
  }

  /** Thirty calls, of which one fails. */
  function FailsOnce(at: nat, how: Outcome): seq<Outcome> {
    seq(30, i => if i == at then how else Done)
  }

  /** The entries are: four for the plan, a write, a pause, four for the job, a write, two questions, the create. */
  lemma OneWayToEnd(end: UpgradeEnd)
    requires EndsAs(FailsOnce(13, Partly(0)), 6, true, 1, false, end)
    ensures end == Stuck(true)
  {
    assert !Fine(FailsOnce(13, Partly(0)), 13);
  }

  lemma UpMayUpgrade(at: nat, how: Outcome)
    requires at > 4
    ensures MayStart(Up(), TargetOf(Up(), "new"), Named) && ServerUp(Up())
    ensures var script := FailsOnce(at, how);
            && |script| == 30 && AllDone(script, 0, 4)
            && (AllDone(script, 5, 1) <==> at != 5 || how == Done)
  {
    var script := FailsOnce(at, how);
    assert AllDone(script, 5, 1) <==> Fine(script, 5);
  }

  method UpWithAPooler(script: seq<Outcome>) returns (pgpod: Pgpod)
    ensures fresh(pgpod) && pgpod.Valid() && pgpod.world == Up() && pgpod.cluster == "c"
    ensures pgpod.Holding() == [TwoPools()] && pgpod.paused == {} && pgpod.script == script
  {
    pgpod := new Pgpod("c", Up());
    pgpod.poolers, pgpod.script := [TwoPools()], script;
    assert PoolsFor(TwoPools().pools, "c")[0] == "a";
  }

  lemma FlagsOfTwo()
    ensures PoolsFor(TwoPools().pools, "c") == ["a", "b"]
    ensures Flags([TwoPools()], "c") == FlagsOf(TwoPools(), "c") == {("p", "a"), ("p", "b")}
    ensures LeftPaused({}, [TwoPools()], "c", FailsOnce(5, Partly(1)), 5, 0) == {("p", "a")}
  {
    var pools := TwoPools().pools;
    assert pools[1..][1..] == [];
    assert PoolsFor(pools[1..], "c") == ["b"];
    assert [TwoPools()][..0] == [];
  }

  /**
    An upgrade whose new container cannot be created, with one pooler in front. It
    ends inside its window, on upgraded data, and both pools stay paused.
  */
  method StuckWithClientsHeld() returns (pgpod: Pgpod, end: UpgradeEnd)
    ensures end == Stuck(true) && pgpod.world.InPhase(Upgrading) && pgpod.world.volume == Data(Major(18, 0))
    ensures Flags([TwoPools()], "c") <= pgpod.paused
  {
    UpMayUpgrade(13, Partly(0));
    pgpod := UpWithAPooler(FailsOnce(13, Partly(0)));
    hide AllDone, EndsAs, MayStart, Flags, FlagsOf, LeftPaused, Safe, Legal, Exec, Fine, FailsOnce, Fronting, TwoPools,
         InWindow, OnlyFlags, LetsGo, GivenUp, Window, TargetOf, Named, Stored, Serving, Pgpod.Valid, Trim, Up, OutcomeAt, Sends;
    end := pgpod.Upgrade("new", Named, false);
    OneWayToEnd(end);
  }

  /** The same upgrade, and then an apply of the new manifest that nothing fails in: it converges, and both pools stay paused. */
  method RepairedWithClientsHeld() returns (pgpod: Pgpod, after: ApplyEnd)
    ensures after == Applied && Converged(pgpod.world, Manifest("new", "", ""), Named("new"))
    ensures Flags([TwoPools()], "c") <= pgpod.paused
  {
    UpMayUpgrade(13, Partly(0));
    pgpod := UpWithAPooler(FailsOnce(13, Partly(0)));
    NothingFails(22);
    NewTarget();
    hide AllDone, EndsAs, MayStart, Flags, FlagsOf, Safe, Legal, Exec, Fine, FailsOnce, Fronting, TwoPools, Converged,
         TargetOf, Named, Stored, Pgpod.Valid, Trim, Up, OutcomeAt, Sends;
    var end;
    end, after := pgpod.UpgradeThenApply("new", Named, false, true, false, FailsOnce(30, Done));
    OneWayToEnd(end);
  }

  lemma NothingFails(n: nat)
    requires n <= 30
    ensures AllDone(FailsOnce(30, Done), 0, n)
  {
  }

  lemma NewTarget()
    ensures TargetOf(Up(), "new") == Manifest("new", "", "")
  {
  }

  /**
    An upgrade whose pause stops after the first of two pools. It reports that the
    pooler could not be held, and leaves that pool paused and the phase `Upgrading`,
    although the server was never touched.
  */
  method RefusedWithAClientHeld() returns (pgpod: Pgpod, end: UpgradeEnd)
    ensures end == HoldRefused(0) && pgpod.world.InPhase(Upgrading) && ServerUp(pgpod.world)
    ensures pgpod.paused == {("p", "a")}
  {
    UpMayUpgrade(5, Partly(1));
    FlagsOfTwo();
    pgpod := UpWithAPooler(FailsOnce(5, Partly(1)));
    hide AllDone, EndsAs, MayStart, Flags, FlagsOf, LeftPaused, Safe, Legal, Exec, Fine, FailsOnce, Fronting, TwoPools,
         InWindow, OnlyFlags, LetsGo, GivenUp, Window, TargetOf, Named, Stored, Serving, Pgpod.Valid, Trim, Up, OutcomeAt, Sends;
    end := pgpod.Upgrade("new", Named, false);
  }

  lemma {:induction false} SendsAt(verb: Verb, poolers: seq<Pooler>, k: nat)
    requires k < |poolers|
    ensures |Sends(verb, poolers)| == |poolers|
    ensures Sends(verb, poolers)[k] == Sent(verb, poolers[k].name)
    decreases |poolers|
  {
    var front := poolers[..|poolers| - 1];
    if front != [] {
      SendsAt(verb, front, if k < |front| then k else 0);
    }
  }

  lemma {:induction false} ReleasesAt(poolers: seq<Pooler>, k: nat)
    requires k < |poolers|
    ensures |Releases(poolers)| == 2 * |poolers|
    ensures Releases(poolers)[2 * k] == Sent(Reconnect, poolers[k].name)
    ensures Releases(poolers)[2 * k + 1] == Sent(Resume, poolers[k].name)
    decreases |poolers|
  {
    var front := poolers[..|poolers| - 1];
    if front != [] {
      ReleasesAt(front, if k < |front| then k else 0);
    }
  }

  /**
    A recreate that completes, for pooler `k` of any number: it is paused before the
    container is stopped, and after the server answered it is sent reconnect and
    then, with nothing in between, resume.
  */
  lemma ClientsAreHeldThroughout(holding: seq<Pooler>, manifest: Manifest, image: Image, k: nat)
    requires k < |holding|
    ensures var acts, n := Completed.Acts(holding, Swap(manifest, image)), |holding|;
            && |acts| == n + 5 + 2 * n
            && acts[k] == Sent(Pause, holding[k].name)
            && acts[n] == Asked(StopContainer)
            && acts[n + 4] == AskedReady
            && acts[n + 5 + 2 * k] == Sent(Reconnect, holding[k].name)
            && acts[n + 5 + 2 * k + 1] == Sent(Resume, holding[k].name)
  {
    SendsAt(Pause, holding, k);
    ReleasesAt(holding, k);
  }

  /** The same over an upgrade's window, with the job between removal and creation. */
  lemma ClientsAreHeldAcrossAnUpgrade(holding: seq<Pooler>, target: Manifest, image: Image, k: nat)
    requires k < |holding|
    ensures var acts, n := Window(holding, target, image), |holding|;
            && |acts| == n + 6 + 2 * n
            && acts[k] == Sent(Pause, holding[k].name)
            && acts[n] == Asked(StopContainer) && acts[n + 2] == Asked(PgUpgrade(image.version))
            && acts[n + 5] == AskedReady
            && acts[n + 6 + 2 * k] == Sent(Reconnect, holding[k].name)
            && acts[n + 6 + 2 * k + 1] == Sent(Resume, holding[k].name)
  {
    SendsAt(Pause, holding, k);
    ReleasesAt(holding, k);
  }

  /** A hold that failed at pooler `at`: each one paused before it was sent resume, and the container was left alone. */
  lemma EveryPausedPoolerIsResumed(holding: seq<Pooler>, at: nat, k: nat)
    requires k < at < |holding|
    ensures var acts := GivenUp(holding, at);
            && |acts| == at + 1 + at
            && acts[k] == Sent(Pause, holding[k].name) && acts[at + 1 + k] == Sent(Resume, holding[k].name)
            && forall i :: 0 <= i < |acts| ==> acts[i].Sent?
  {
    SendsAt(Pause, holding[..at + 1], k);
    SendsAt(Resume, holding[..at], k);
    var acts := GivenUp(holding, at);
    forall i | 0 <= i < |acts| ensures acts[i].Sent? {
      if i <= at {
        SendsAt(Pause, holding[..at + 1], i);
      } else {
        SendsAt(Resume, holding[..at], i - at - 1);
      }
    }
  }

  lemma {:induction false} FlagComesFromAPooler(poolers: seq<Pooler>, cluster: string, flag: (string, string)) returns (p: Pooler)
    requires flag in Flags(poolers, cluster)
    ensures p in poolers && p.name == flag.0 && flag.1 in PoolsFor(p.pools, cluster)
    decreases |poolers|
  {
    var last := |poolers| - 1;
    if flag in FlagsOf(poolers[last], cluster) {
      p := poolers[last];
    } else {
      p := FlagComesFromAPooler(poolers[..last], cluster, flag);
    }
  }

  /** The poolers in front of a cluster are just those with a pool for it. */
  lemma {:induction false} FrontingIsExact(poolers: seq<Pooler>, cluster: string, p: Pooler)
    ensures p in Fronting(poolers, cluster) <==> p in poolers && PoolsFor(p.pools, cluster) != []
  {
    if poolers != [] {
      FrontingIsExact(poolers[1..], cluster, p);
      assert poolers == [poolers[0]] + poolers[1..];
    }
  }

  /**
    Pools of other clusters are never paused or resumed, even on a pooler that is
    held: names are unique among poolers and within each one.
  */
  lemma OtherClustersUntouched(before: set<(string, string)>, after: set<(string, string)>, poolers: seq<Pooler>,
                               cluster: string, other: string, p: Pooler, name: string)
    requires forall a, b :: a in poolers && b in poolers && a.name == b.name ==> a == b
    requires forall a :: a in poolers ==> DistinctStrings(Names(a.pools))
    requires OnlyFlags(before, after, Fronting(poolers, cluster), cluster)
    requires p in poolers && other != cluster && name in PoolsFor(p.pools, other)
    ensures (p.name, name) in before <==> (p.name, name) in after
  {
    var flag := (p.name, name);
    if flag in Flags(Fronting(poolers, cluster), cluster) {
      var q := FlagComesFromAPooler(Fronting(poolers, cluster), cluster, flag);
      FrontingIsExact(poolers, cluster, q);
      HoldsDoNotOverlap(p.pools, cluster, other, name);
    }
  }
}
