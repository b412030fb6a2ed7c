# pgpod, modelled and proved

pgpod runs PostgreSQL clusters in podman containers: it keeps a registry of what
was asked for, creates and replaces containers, holds pooled clients across a
restart, runs `pg_upgrade`, and puts everything back after a reboot. This project
states what that code promises, as Dafny, and proves it.

`dafny verify dfyconfig.toml` checks the whole project.

## The modules

The crash-safe control plane:

- `Protocol` has the durable state of one cluster (registry rows, instance
  container, volume), the single writes that may change it, and the condition of
  each. Any run of such writes, cut anywhere, is safe.
- `ControlPlane` has the programs: apply, recreate, upgrade, rehearsal, delete and
  boot recovery, as methods that update a `Pgpod` object. Each call to the outside
  takes the next entry of a script that says how it ends; when the script is used
  up the process is dead. So a method proved for every script is proved for a kill
  at every point and for every pattern of failing calls, and its contract says which
  scripts lead to which ending. `Run` puts the programs one after the other with
  reboots and a lost registry in between. The calls made to podman and the poolers
  are recorded in order, and the contracts give them exactly.
- `Holds` is the agent beside a pooler, with its deadlines: who can be left waiting.
- `Daemon` is boot recovery over a whole host, with its report. The step for one
  container is there without kills; `ControlPlane` has it for one cluster, with them.
- `Lifecycle` and `Versions` have the phases and versions both depend on.

The rest of what the control plane relies on:

- `AdminWire` is the codec of the pooler's admin console and `AdminClient` the
  buffered client loop over it, up to one verb for each pool.
- `Http` is the reader of podman's responses, with chunked bodies.
- `Registry` is the tables and the calls that change them.
- `Poolers` resolves pool names, scopes a hold, and mounts lookup secrets.
- `Conf` is the two PostgreSQL configuration files, with a reader to compare against,
  and `ConfLines` what they say when values have more than one line.
- `Ids`, `Duration` and `Backup` are names, durations and the choice of a backup.
- `Text`, `Wrappers` and `Sorting` hold what the standard library provides, and
  `Scripts` the outcomes of calls.

Code that updates things step by step is a class or a loop, proved against a
function or an exact new state; code made of expressions is functions and lemmas.

## Where the code and its documentation part

- **A failed pause leaves pools paused.** `PoolerHold::acquire` sends resume to the
  poolers it paused before the one that failed, and not to that one
  (`crates/pgpod-control/src/pooler.rs:844-857`); the agent arms its deadline only
  after all pools are paused (`crates/pgpod-agent/src/pooler/control.rs:121-130`).
  A hold succeeds exactly if every pause does, and otherwise `PoolerHold.Acquire`
  gives the flags that stay. If its resumes succeed, no client is left waiting
  exactly if the failed pause had no effect at all
  (`GivenUpHoldLeavesWhatThePauseReached`). `RefusedWithAClientHeld` is a run that
  ends otherwise, with phase `upgrading` and a server that was never touched.
- **A resume that fails cancels the deadline.** The agent counts the hold as over
  before it sends the verb (`crates/pgpod-agent/src/pooler/control.rs:161-170`), so
  the pools it did not get to wait with nothing armed to let them go.
  `Holds.StrandedExactly` has the condition for any run of requests and deadlines.
- **An error inside an upgrade's window releases nothing.** Failing to start or to
  become ready after the job returns without a release
  (`crates/pgpod-control/src/upgrade.rs:347-352`, `385-402`). `Upgrade` says which
  runs end like that (`EndsAs`): exactly those whose job is done and in which a call
  needed to start the server, or the one that asks whether it is ready, fails.
  Every pool of the cluster is then still paused, with each agent's deadline armed;
  `StuckWithClientsHeld` is such a run. The state is safe, and boot recovery leaves
  it alone.
- **Applying again repairs the cluster, not the wait.** One apply without failing
  calls converges whatever was left by whatever was cut short, if the image reads
  the data (`Pgpod.RunThenApply`). But after an apply that succeeds no pool of the
  cluster is paused exactly if it recreated the container or none was before
  (`Pgpod.Apply`). An apply of what a stuck upgrade recorded never recreates, so all
  pools stay paused through it (`Pgpod.UpgradeThenApply`, `RepairedWithClientsHeld`).
- **A user's parameter can set a reserved one.** Two ways. `render_user_conf` accepts
  `include`, `include_if_exists` and `include_dir`
  (`crates/pgpod-pg/src/conf.rs:293-324`), which PostgreSQL takes for directives, and
  the file such a line names comes after the managed settings
  (`Conf.AnIncludeIsAccepted`). And `quote` leaves backslashes and newlines alone
  (`crates/pgpod-pg/src/conf.rs:333-335`), so a value can end its string on the first
  line and have settings of its own behind (`ConfLines.AValueTurnsArchivingOff`). A
  user's file that can be read leaves the reserved parameters of any managed file
  alone, on any host, exactly if no parameter is named like a directive and no line
  behind a value is a directive or sets a reserved name
  (`ConfLines.ReservedHoldExactly`). Over one managed file such a line does no harm if
  the value it sets is the one there is anyway (`ConfLines.ReservedKeepTheirValues`).
- **So can a value in the managed file.** The settings recovery depends on are as
  rendered exactly if the lines behind its values leave them so
  (`ConfLines.RecoverabilityIsRead`); the name of a preloaded library is enough to turn
  archiving off (`ConfLines.ALibraryTurnsArchivingOff`).
- **An adopted container may be created from an older manifest.** User and group,
  secret mounts and storage size are neither in the instance spec nor in the image,
  so the divergence check does not see them; an apply that changes only those
  records them and keeps the container (`RestAfter` in `Apply`). What
  `crates/pgpod-control/src/daemon.rs:793-797` says of the baked-in spec is true,
  for spec and image.
- **A dry run can be wrong.** Container names are not always distinct: cluster
  `pooler-a` with pooler `a-1` (`Ids.PoolerClashIsExact`, `Daemon.DryRunCanBeWrong`).
  `Daemon.DryRunIsRightExactly` has the exact condition.
- **A malformed row fails the whole recovery.** `resume_cluster` means to report a bad
  name (`crates/pgpod-control/src/daemon.rs:399-413`), but `list_clusters` fails first
  (`crates/pgpod-registry/src/lib.rs:238-253`). A stored phase or role of an instance
  that is not known (`crates/pgpod-registry/src/lib.rs:359-364`) fails the run when its
  cluster's turn comes, and a pooler's bad name after the clusters were resumed.
  `ResumeWith` follows the code.
- **Keys collide at 9.100.** `version_key` orders versions while the 9.x minor is
  below 100; 9.100 has the key of 10 (`Versions.NinesStayBelow`).
- **Two versions that cannot be read pass for the same.** The compatibility check
  gives each the key 0 (`crates/pgpod-control/src/upgrade.rs:547-553`), so data of
  version 8 passes for an image of version 7 (`Versions.SameKeyExactly`,
  `Versions.OldVersionsPassForEachOther`).
- **A backslash does not survive quoting.** `quote` doubles quotes only, and
  PostgreSQL reads a backslash as an escape
  (`Conf.QuotingSurvivesExactlyWhenReadable`). So the files say what they were meant
  to say exactly if no value on either side holds a newline or a backslash
  (`Conf.FilesAreRead`).
- **Ordinals are read leniently.** `mydb-+1` and `mydb-01` are accepted
  (`Ids.AcceptsExactly`).

## Assumptions

- One operation on a cluster runs at a time.
- A registry write succeeds unless the process dies first; SQLite enforces the
  schema and rolls back a transaction that fails.
- First start bootstraps an empty volume in one step with the start.
- The `pg_upgrade` job is one step, and fails exactly if the data is unchanged.
- An image ID is always reported and names an image of one version; what a name
  resolves to may change between operations, not during one.
- Images and data directories are of versions from 9.0 on, with a 9.x minor below
  100 and a key of 32 bits (`Versions.Recognised`). For any other pair of texts the
  compatibility check is only what `Versions.SameKeyExactly` says.
- A hold may be given up by its agent at any time between two operations
  (`HoldExpires`); when one is, and when none ever will be, is in `Holds`.
- An agent takes requests one after the other, and a deadline comes between two.
- A manifest has one instance, which is what manifest validation requires
  (`crates/pgpod-core/src/manifest.rs:141-154`).

## Model

| member | source | states |
|---|---|---|
| Protocol.StepKeepsSafe | crates/pgpod-control/src/daemon.rs:793-797 | One write, made under its condition, keeps the invariant: a container's image reads the data on disk, and a cluster at `running` has no container but the one its stored manifest describes. |
| Protocol.EveryPrefixIsSafe | crates/pgpod-control/src/lib.rs:342-377 | In any run of writes, every state passed through is safe, so a kill between any two writes leaves a safe state. |
| Protocol.NoServerStartsOnUnreadableData | crates/pgpod-control/src/upgrade.rs:480-501 | At every start in any run, the container's image and the data are of one major version, or the volume is empty. |
| Protocol.ResumeStartsOnlyWhatTheManifestDescribes | crates/pgpod-control/src/daemon.rs:119-135 | Wherever boot recovery's gate is open, the container has the stored manifest's spec and the image it named, which reads the data: the divergence check it does not make is not needed. |
| Protocol.VersionsOnlyClimb | crates/pgpod-control/src/upgrade.rs:165-185 | While the volume is not removed, data never disappears, its version never goes back, and it is another version exactly if a pg_upgrade lies in between. |
| ControlPlane.Pgpod.Record | crates/pgpod-control/src/lib.rs:342-342 | A registry write happens whole or, if the process is dead, not at all, and only where the protocol allows it. |
| ControlPlane.Pgpod.Podman | crates/pgpod-control/src/pooler.rs:732-744 | A container call may fail before or after it took effect; either way the write is one the protocol allows. |
| ControlPlane.Pgpod.Control | crates/pgpod-control/src/pooler.rs:561-582 | A pause or resume changes the flags of this cluster's pools on this pooler, exactly those it got to before it ended. |
| ControlPlane.Pgpod.RefuseIncompatibleImage | crates/pgpod-control/src/upgrade.rs:502-592 | What passes can read the data; what is refused holds data of another version, and the direction reported is the true one; no answer exactly if a probe fails. Nothing is changed. |
| ControlPlane.Pgpod.Apply | crates/pgpod-control/src/lib.rs:299-387 | Succeeds exactly if the image reads the data, every call the case at hand needs succeeds, and a divergence is permitted; a refusal changes nothing; success converges phase, manifest, container and data; failure is recorded as `failed`; a healthy matching or unpermitted container is untouched; data never changes; after success no pool of the cluster is paused exactly if it recreated or none was before; and `running` is stored only for a converged cluster. |
| ControlPlane.Pgpod.ApplyAllowed | crates/pgpod-control/src/lib.rs:342-387 | The same for an image that was found compatible: the end is recorded, as `running` or as `failed`, by exactly the outcome of what lies between. |
| ControlPlane.Pgpod.RunThenApply | crates/pgpod-control/src/lib.rs:299-387 | After any sequence of operations, each cut short anywhere, one apply whose calls succeed converges, or its image cannot read the data; it never is refused for data that only applies, deletes without purge and recoveries have seen and that its image reads. |
| ControlPlane.Pgpod.UpgradeThenApply | crates/pgpod-control/src/upgrade.rs:344-402 | After any upgrade that was stuck before its release, an apply of what it recorded, with no failing call, converges and leaves every pool of the cluster paused. |
| ControlPlane.RepairedWithClientsHeld | crates/pgpod-control/src/lib.rs:539-548 | A run of that kind, from the one that `StuckWithClientsHeld` has. |
| ControlPlane.FaultFreeApplyWorks | crates/pgpod-control/src/lib.rs:299-387 | With no failing call among the first 3h + 19, h poolers in front, an apply works exactly if the image reads the data and it may recreate or need not. |
| ControlPlane.Pgpod.ApplyRecorded | crates/pgpod-control/src/lib.rs:395-466 | The recorded half ends with a running container of the manifest's spec and image, or says why not, and which by exactly the outcomes of the calls it needs; divergence is refused only for a running, differing container without permission; a recreate that succeeds leaves no pool of the cluster paused, and nothing else changes a flag. |
| ControlPlane.Pgpod.ApplyInstance | crates/pgpod-control/src/lib.rs:504-630 | Adopts what matches, starts what is stopped and matches, replaces what is stopped and stale, and recreates a running one only with permission. |
| ControlPlane.Pgpod.Converge | crates/pgpod-control/src/lib.rs:539-610 | Which of the five ways is taken depends on the container, the manifest and the permission alone, and each succeeds by exactly its own calls. |
| ControlPlane.Pgpod.CreateAndStart | crates/pgpod-control/src/lib.rs:563-606 | A stopped stale container goes first; success leaves a running container made from the manifest, and existing data is untouched. |
| ControlPlane.Pgpod.RecreateInstance | crates/pgpod-control/src/pooler.rs:652-713 | Succeeds exactly if every pause, every call of the swap but the stop, and every release does; the exact sequence of calls for each way it can end; a failed hold leaves the container as it was; after success the cluster's pools are exactly unpaused. |
| ControlPlane.Pgpod.SwapUnderHold | crates/pgpod-control/src/pooler.rs:675-713 | Whichever way the swap ends, the held poolers are let go: reconnect and resume after success, resume after failure. |
| ControlPlane.Pgpod.RecreateHeld | crates/pgpod-control/src/pooler.rs:716-752 | Stop, remove, create, start, wait, in that order; on failure a prefix of at least the first two. |
| ControlPlane.Pgpod.RunPgUpgrade | crates/pgpod-control/src/upgrade.rs:298-303 | The job fails exactly if the data is unchanged, and a rehearsal never changes it. |
| ControlPlane.Pgpod.UpgradeHeld | crates/pgpod-control/src/upgrade.rs:598-651 | Succeeds exactly if its four calls do; then no container is left and, unless it is a rehearsal, the data is the new version; failure leaves the data alone, and the container exactly until the removal takes effect. |
| ControlPlane.Pgpod.StartInstance | crates/pgpod-control/src/upgrade.rs:662-704 | Removes whatever holds the name and leaves a running container of the given manifest and image, exactly if the instance is known and each call but the stop succeeds. |
| ControlPlane.Pgpod.StartAndWait | crates/pgpod-control/src/upgrade.rs:347-348 | And it answers, exactly if the start succeeds and the readiness probe does. |
| ControlPlane.Pgpod.PlanUpgrade | crates/pgpod-control/src/upgrade.rs:102-253 | Goes ahead if and only if its four probes are answered, the server is up, its data has the stored image's version and the target is strictly newer; nothing is changed. |
| ControlPlane.Pgpod.Upgrade | crates/pgpod-control/src/upgrade.rs:102-478 | It is turned down, with nothing changed, exactly unless `MayStart` holds and the plan's calls succeed; the hold is refused exactly at the first pause that fails; every later ending, released or not, has its exact condition on the script, and its exact phase, data, container, flags and last calls; the stored manifest is the new one only once the data is. |
| ControlPlane.Pgpod.UpgradePlanned | crates/pgpod-control/src/upgrade.rs:288-383 | The part behind the plan: recorded as upgrading first, then the hold, then the window, each ending with its condition. |
| ControlPlane.Pgpod.OpenWindow | crates/pgpod-control/src/upgrade.rs:288-296 | The window opens exactly if every pause succeeds; otherwise it ends at the first that did not, with those before it sent resume and the flags that leaves. |
| ControlPlane.Pgpod.InsideWindow | crates/pgpod-control/src/upgrade.rs:294-383 | A failed job rolls back, a rehearsal leaves things as they were, and an upgrade goes on, each in exactly the runs `EndsAs` gives and with its exact result. |
| ControlPlane.Pgpod.RollBack | crates/pgpod-control/src/upgrade.rs:300-341 | The old server is back on its data and recorded as running exactly if it could be started, and otherwise the cluster is `failed`; the clients are let go last in both, and after a restart by exactly the outcomes of the releases. |
| ControlPlane.Pgpod.FinishCheck | crates/pgpod-control/src/upgrade.rs:344-377 | A rehearsal leaves the same manifest and data, a serving server, and phase `running`; it is cut short, with the pools still paused and the rows untouched, exactly if the server cannot be started or does not answer. |
| ControlPlane.Pgpod.FinishUpgrade | crates/pgpod-control/src/upgrade.rs:385-478 | The new server serves the new data under the new manifest, after exactly the calls of the window, with the clients let go only once it is ready, exactly if it starts, answers and every release succeeds; it is cut short before any release exactly if it does not start or answer. |
| ControlPlane.FaultFreeUpgradeWorks | crates/pgpod-control/src/upgrade.rs:294-478 | An upgrade past its plan with no failing call ends upgraded, and a rehearsal checked and released. |
| ControlPlane.StuckWithClientsHeld | crates/pgpod-control/src/upgrade.rs:385-402 | A run in which creating the new container fails: it ends in phase `upgrading`, on upgraded data, with the cluster's pools paused. |
| ControlPlane.RefusedWithAClientHeld | crates/pgpod-control/src/pooler.rs:843-857 | A run in which a pause stops after the first of two pools: that pool stays paused and the phase stays `upgrading`, with the server up. |
| ControlPlane.Pgpod.Delete | crates/pgpod-control/src/lib.rs:1215-1335 | Succeeds exactly if there is such a cluster, no pooler in front of a purge, and every call but the stop succeeds; without `purge` the data stays; with it a fronted cluster is refused before anything is removed; a volume goes only after its container; the rows say what was done. |
| ControlPlane.Pgpod.RemoveInstance | crates/pgpod-control/src/lib.rs:1253-1275 | The container first and, for a purge, then the volume, by exactly those calls. |
| ControlPlane.Pgpod.ResumeInstance | crates/pgpod-control/src/daemon.rs:502-587 | The action reported for every phase, probe and outcome; a start happens only with both phases allowing it, on the container the manifest describes, with data it can read; a dry run changes nothing. |
| ControlPlane.Pgpod.Run | crates/pgpod-control/src/daemon.rs:793-797 | Any sequence of apply, recreate, upgrade, check, delete, purge, boot recovery, reboot and lost registry, with a kill anywhere in each, passes through safe states only; data changes only through an upgrade or a purge. |
| ControlPlane.PoolerHold.Acquire | crates/pgpod-control/src/pooler.rs:835-867 | Holds every pooler exactly if every pause succeeds; otherwise, at the first that did not, exactly those before it are sent resume, and the flags left are given for every outcome of pauses and resumes. |
| ControlPlane.PoolerHold.PauseEach | crates/pgpod-control/src/pooler.rs:843-857 | Pauses in order up to the first that does not succeed, with the exact flags that leaves. |
| ControlPlane.PoolerHold.Release | crates/pgpod-control/src/pooler.rs:897-901 | Sends resume to each held pooler in order, whether or not one fails, with the exact flags that leaves. |
| ControlPlane.PoolerHold.ReleaseAfterRecreate | crates/pgpod-control/src/pooler.rs:886-894 | Reconnect then resume for each pooler in order, stopping at the first failure; it succeeds exactly if every call does, and then the cluster's pools are unpaused. |
| ControlPlane.Reached | crates/pgpod-agent/src/pooler/control.rs:190-214 | A verb that fails reaches a prefix of a pooler's pools, and none exactly if it failed on the first. |
| ControlPlane.ClientsAreHeldThroughout | crates/pgpod-control/src/pooler.rs:652-752 | For any number of poolers: each is paused before the stop, and after readiness is sent reconnect and then, next, resume. |
| ControlPlane.ClientsAreHeldAcrossAnUpgrade | crates/pgpod-control/src/upgrade.rs:290-402 | The same across an upgrade, with the job between removal and creation. |
| ControlPlane.EveryPausedPoolerIsResumed | crates/pgpod-control/src/pooler.rs:848-856 | When a hold is given up, every pooler already paused is sent resume, and no container call was made. |
| ControlPlane.GivenUpHoldLeavesWhatThePauseReached | crates/pgpod-control/src/pooler.rs:835-867 | From no paused pool, a hold given up with its resumes done leaves exactly what the failed pause reached, and nothing if and only if that pause had no effect. |
| ControlPlane.OtherClustersUntouched | crates/pgpod-control/src/pooler.rs:816-819 | A hold on one cluster changes no flag of another cluster's pools, on any pooler. |
| ControlPlane.FrontingIsExact | crates/pgpod-registry/src/lib.rs:546-565 | The poolers a hold covers are exactly those with a pool for the cluster. |
| Holds.Agent.Pause | crates/pgpod-agent/src/pooler/control.rs:116-159 | A pause gets to some of the cluster's pools; only one that got to all counts as a hold and arms a deadline for it. |
| Holds.Agent.Resume | crates/pgpod-agent/src/pooler/control.rs:161-170 | The hold is over before the verb is sent, whatever comes of it. |
| Holds.Agent.Deadline | crates/pgpod-agent/src/pooler/control.rs:131-152 | A deadline resumes exactly if no pause or resume of its cluster came since. |
| Holds.Agent.Serve | crates/pgpod-agent/src/pooler/control.rs:83-93 | Any sequence of requests and deadlines is a run of those steps. |
| Holds.StrandedExactly | crates/pgpod-agent/src/pooler/control.rs:116-170 | Over any run a pool is paused with no deadline armed for its hold if and only if a pause failed after it got to the pool with none armed, or a resume failed before it did, and since then no pause succeeded and no resume got to it; other clusters do not matter. |
| Holds.NobodyStrandedWithoutFailures | crates/pgpod-agent/src/pooler/control.rs:12-19 | While every verb succeeds no pool is paused without a deadline. |
| Holds.TheDeadlineLetsGo | crates/pgpod-agent/src/pooler/control.rs:12-19 | After a pause that succeeded, whatever came before, its deadline alone lets every pool go. |
| Holds.AFailedResumeStrands | crates/pgpod-agent/src/pooler/control.rs:161-170 | After a pause and a resume that had no effect the pool waits, and the deadline that was armed changes nothing. |
| Versions.LabelReads | crates/pgpod-core/src/upgrade.rs:221-237 | The label of every version from 9.0 up reads back as itself. |
| Versions.LabelNamesAVersion | crates/pgpod-core/src/upgrade.rs:221-237 | Whatever text a label came from, it is the label of some version. |
| Versions.MajorLabelIsIdempotent | crates/pgpod-core/src/upgrade.rs:221-237 | Reading a label twice is reading it once. |
| Versions.KeyFollowsLabel | crates/pgpod-core/src/upgrade.rs:245-251 | A text's key is that of its label. |
| Versions.KeyIsAnOrderEmbedding | crates/pgpod-core/src/upgrade.rs:239-251 | Keys compare as versions do, in both directions, and a readable version is above the key of an unreadable one, while the 9.x minor is below 100 and the key fits 32 bits. |
| Versions.SameKeyExactly | crates/pgpod-control/src/upgrade.rs:547-553 | Two texts pass for one version exactly if both name the same one or neither can be read. |
| Versions.OldVersionsPassForEachOther | crates/pgpod-control/src/upgrade.rs:547-553 | Versions 8 and 7 pass for each other. |
| Versions.NinesStayBelow | crates/pgpod-core/src/upgrade.rs:245-251 | The bound is exact: a 9.x key is below 10's exactly for minors below 100, and 9.100 has the key of 10. |
| Lifecycle.PhasesSurviveStorage | crates/pgpod-core/src/lifecycle.rs:155-222 | Every phase reads back from its stored text, and no other text is taken for `running`. |
| Daemon.Host.ResumeContainer | crates/pgpod-control/src/daemon.rs:502-587 | The action reported and the container's new state, for every phase, probe and failure. |
| Daemon.Host.ResumeCluster | crates/pgpod-control/src/daemon.rs:392-494 | A cluster whose phase forbids it has nothing looked at; otherwise its instances in order, and rows that became ready recorded. |
| Daemon.Host.ResumeWith | crates/pgpod-control/src/daemon.rs:330-390 | Clusters then poolers, each unit by the rule and in order; a dry run changes nothing; it fails exactly for a malformed name or for instances, of a cluster not skipped, that cannot be read, and then the clusters before that one were resumed. |
| Daemon.DryRunIsRightExactly | crates/pgpod-control/src/daemon.rs:294-302 | A dry run is right about a unit if and only if no earlier unit that it would start is in the same container and comes up. |
| Daemon.DryRunIsRight | crates/pgpod-control/src/daemon.rs:294-302 | With distinct container names: would-start for exactly the units a real run attempts, and the same answer for every other unit. |
| Daemon.DryRunIsRightOnAHost | crates/pgpod-control/src/daemon.rs:294-302 | The same for a host whose names follow the rule, unless a pooler has the name `Ids.PoolerClashIsExact` gives. |
| Daemon.DryRunCanBeWrong | crates/pgpod-core/src/ids.rs:195-204 | With cluster `pooler-a` and pooler `a-1` the two share a container, and the dry run is wrong. |
| Daemon.SecondRunStartsNothing | crates/pgpod-control/src/daemon.rs:315-324 | After a real run that failed nowhere and whose starts came up, a second one attempts nothing and changes nothing. |
| Daemon.SecondResumeStartsNothing | crates/pgpod-control/src/daemon.rs:315-324 | The same for a whole host, with the rows the first run left behind. |
| Daemon.DryRunChangesNothing | crates/pgpod-control/src/daemon.rs:294-302 | A dry run leaves every container as it was. |
| Daemon.CountReport | crates/pgpod-control/src/daemon.rs:236-250 | The counts are those of the units, with skipped clusters added to the skipped. |
| Daemon.CountsAreExact | crates/pgpod-control/src/daemon.rs:236-250 | Each count is the number of units with that outcome, and together they are all the units. |
| AdminWire.ParseFields | crates/pgpod-pooler/src/admin.rs:163-178 | The loop over a row description reads exactly the counted names, or says what is cut short. |
| AdminWire.ParseColumns | crates/pgpod-pooler/src/admin.rs:182-203 | The loop over a data row reads exactly the counted values, NULL for a negative length. |
| AdminWire.ParseError | crates/pgpod-pooler/src/admin.rs:215-238 | The text is made of the last severity and the last message before the terminator or the first malformed field. |
| AdminWire.Parse | crates/pgpod-pooler/src/admin.rs:139-209 | The loops together compute the meaning of a message body. |
| AdminWire.Decode | crates/pgpod-pooler/src/admin.rs:118-137 | Incomplete, malformed or one message, with exactly the bytes behind it left. |
| AdminWire.DecidedStaysDecided | crates/pgpod-pooler/src/admin.rs:113-117 | A decided outcome is the same whatever bytes arrive later; they are appended to what is left. |
| AdminWire.FrameThenDecode | crates/pgpod-pooler/src/admin.rs:118-249 | Decoding inverts a server's encoding of every kind of message within the size limit, and following bytes stay in the buffer. |
| AdminWire.BodyIsRead | crates/pgpod-pooler/src/admin.rs:139-209 | Every message body reads as what the server meant by it. |
| AdminWire.ColumnsAreRead | crates/pgpod-pooler/src/admin.rs:163-178 | Row descriptions read back for any metadata, and trailing bytes are ignored. |
| AdminWire.ValuesAreRead | crates/pgpod-pooler/src/admin.rs:182-203 | Data rows read back with NULL and the empty value kept apart. |
| AdminWire.FieldsAreRead | crates/pgpod-pooler/src/admin.rs:215-238 | Error fields read back in order, whatever follows the terminator. |
| AdminWire.CstrIsTaken | crates/pgpod-pooler/src/admin.rs:240-249 | A NUL-terminated string is taken whole, with what follows it. |
| AdminWire.TaggedIsOneFrame | crates/pgpod-pooler/src/admin.rs:83-91 | A frontend message's length says where the next begins exactly while it fits 31 bits. |
| AdminWire.StartupDescribesItself | crates/pgpod-pooler/src/admin.rs:31-52 | A startup message's length, version and parameters read back. |
| AdminClient.Admin.NextMessage | crates/pgpod-agent/src/pooler/admin.rs:105-123 | The next message and what is left depend on the bytes alone, never on how reads split them; it ends on every finite stream. |
| AdminClient.Admin.Execute | crates/pgpod-agent/src/pooler/admin.rs:68-90 | One query is sent, and messages are read up to and with the next ReadyForQuery. |
| AdminClient.Admin.Authenticate | crates/pgpod-agent/src/pooler/admin.rs:35-65 | Each challenge is answered with its own salt; it ends at ReadyForQuery, an error, or another method. |
| AdminClient.Admin.ForEachPool | crates/pgpod-agent/src/pooler/control.rs:177-215 | With no pools it fails before a byte is sent; otherwise it signs in and, once that succeeds, sends one command a pool up to the first failure that means something, and always the terminate message last. |
| AdminClient.Admin.ApplyVerb | crates/pgpod-agent/src/pooler/control.rs:192-209 | One command a pool, in order, up to the first failure that means something. |
| AdminClient.ExecuteReadsOneBlock | crates/pgpod-agent/src/pooler/admin.rs:68-90 | One command consumes exactly one block and returns its last columns, all its rows in order and its last tag, or its last error. |
| AdminClient.ClientStaysInStep | crates/pgpod-agent/src/pooler/admin.rs:71-86 | `k` commands consume exactly `k` blocks, and each answer is its own block's, even after an error in an earlier one. |
| AdminClient.EachPoolHasItsOwnReply | crates/pgpod-agent/src/pooler/control.rs:172-214 | The pools named as applied are exactly those whose own reply held no error, up to the one that stopped it. |
| AdminClient.SignInAnswersTheChallenge | crates/pgpod-agent/src/pooler/admin.rs:35-65 | The usual exchange ends signed in, with the challenge's salt answered, and leaves what follows for commands. |
| AdminClient.ParsePools | crates/pgpod-pooler/src/admin.rs:296-321 | Fails exactly if a needed column is missing; otherwise one row of cells by name for each row. |
| AdminClient.ReadByNameNotPosition | crates/pgpod-pooler/src/admin.rs:290-321 | The order in which the server lists the columns does not matter. |
| Http.DecodeChunked | crates/pgpod-runtime/src/http.rs:178-203 | The loop over a shrinking input computes the specified decoding, and ends. |
| Http.NoShorterBody | crates/pgpod-runtime/src/http.rs:178-203 | For every input that decodes: each cut before the end of the last-chunk line is an error, and anything behind it changes nothing. |
| Http.EncodeThenDecode | crates/pgpod-runtime/src/http.rs:175-203 | Any split into non-empty chunks, with any hex spelling, padding, extension and trailer, decodes to the data. |
| Http.EveryTruncationIsAnError | crates/pgpod-runtime/src/http.rs:175-203 | No strict prefix of an encoded body decodes. |
| Http.SizeIsRead | crates/pgpod-runtime/src/http.rs:186-190 | Every spelling of a size is read as that size, whatever extension follows. |
| Http.PlainResponseIsRecovered | crates/pgpod-runtime/src/http.rs:139-169 | Status and body come back exactly, also when the body holds blank lines. |
| Http.ChunkedResponseIsRecovered | crates/pgpod-runtime/src/http.rs:139-169 | Status and data come back exactly from a chunked response. |
| Http.TruncatedResponseIsAnError | crates/pgpod-runtime/src/http.rs:139-203 | A chunked response cut anywhere before its last-chunk line is complete is an error. |
| Http.HeadIsRead | crates/pgpod-runtime/src/http.rs:139-161 | The first blank line ends the head, and the head gives the status and whether any header announces chunks. |
| Http.FoundInPrefix | crates/pgpod-runtime/src/http.rs:171-173 | A mark is missed in a prefix only while its last byte is. |
| Registry.Registry.PutCluster | crates/pgpod-registry/src/lib.rs:164-199 | A generation is kept for the same manifest and raised for another; no other row changes. |
| Registry.Registry.SetClusterPhase | crates/pgpod-registry/src/lib.rs:255-261 | Only the phase of that row changes; an unknown name changes nothing. |
| Registry.Registry.DeleteCluster | crates/pgpod-registry/src/lib.rs:267-291 | Refused exactly while a pool refers to it, naming a pooler that does; otherwise the row and its instances go, and nothing else. |
| Registry.Registry.PutInstance | crates/pgpod-registry/src/lib.rs:296-326 | Succeeds exactly for a known cluster. |
| Registry.Registry.PutPooler | crates/pgpod-registry/src/lib.rs:387-465 | Succeeds exactly if names differ and clusters exist; then the pooler's rows are those exported and others are as before; a failure changes nothing. |
| Registry.Registry.InsertRows | crates/pgpod-registry/src/lib.rs:452-462 | The inserts of a transaction, one by one, with the keys the schema enforces. |
| Registry.Registry.DeletePooler | crates/pgpod-registry/src/lib.rs:575-581 | The pooler and its pools go, and nothing else. |
| Registry.Registry.PoolersForCluster | crates/pgpod-registry/src/lib.rs:546-565 | Exactly the poolers with a pool on the cluster, each once, in order; none exactly when the cluster may be deleted. |
| Registry.Registry.Perform | crates/pgpod-registry/src/lib.rs:160-199 | Any sequence of calls keeps every reference, and every generation is 1 plus the changed puts so far. |
| Registry.ChangesCountsNeighbours | crates/pgpod-registry/src/lib.rs:160-163 | The changes counted are the places where successive manifests differ. |
| Registry.RowsAreExact | crates/pgpod-registry/migrations/V2__poolers.sql:33-41 | With distinct names there is one row for each exported pool, and no other. |
| Poolers.PoolsForIsExact | crates/pgpod-core/src/pooler.rs:139-145 | Exactly the names of the pools of that cluster. |
| Poolers.HoldsDoNotOverlap | crates/pgpod-core/src/pooler.rs:134-145 | With distinct names, a hold on one cluster names no pool of another. |
| Poolers.ClustersAreExact | crates/pgpod-core/src/pooler.rs:147-152 | Every cluster of a pool, each once, in order, and no other. |
| Poolers.PoolsForPartitions | crates/pgpod-core/src/pooler.rs:139-152 | The pools of all the clusters are all the pools, each as often as it occurs. |
| Poolers.Validate | crates/pgpod-core/src/pooler.rs:154-200 | Accepts exactly the specs with pools, a size, a budget, distinct names and complete targets; a duplicate reported is one. |
| Poolers.ResolvePools | crates/pgpod-control/src/pooler.rs:66-117 | Succeeds if and only if every defaulted cluster has a database and all names differ; then the result is the inputs flattened in order; an error is true of the manifest. |
| Poolers.CollisionIsReal | crates/pgpod-control/src/pooler.rs:97-107 | A name found claimed is exported by both clusters named, so no resolution exists. |
| Poolers.LookupMounts | crates/pgpod-control/src/pooler.rs:465-479 | Each index some pool carries is mounted once, with the secret of a cluster that carries it. |
| Poolers.OneSecretPerCluster | crates/pgpod-control/src/pooler.rs:462-479 | Each cluster's secret is mounted at exactly one index, the one all its pools carry. |
| Conf.QuotingSurvivesExactlyWhenReadable | crates/pgpod-pg/src/conf.rs:327-335 | A quoted value reads back as it was written if and only if it holds no newline and no backslash. |
| Conf.RenderUserConf | crates/pgpod-pg/src/conf.rs:288-317 | Fails if and only if some name is reserved or malformed, and names one that is; otherwise writes every parameter, sorted. |
| ConfLines.ReservedHoldExactly | crates/pgpod-pg/src/conf.rs:10-15 | Of accepted parameters whose file can be read: it leaves reserved parameters as any managed file has them, on any host, if and only if no parameter is named like an include directive and no line behind a newline in a value is one or sets a reserved name. |
| ConfLines.ReservedKeepTheirValues | crates/pgpod-pg/src/conf.rs:10-15 | Over one managed file: reserved parameters keep their very values on every host if and only if there is no directive of either kind and the last such line for a reserved name sets the value it has anyway. |
| ConfLines.FilesTogether | crates/pgpod-pg/src/conf.rs:7-15 | For any name that no line behind a value sets: a user parameter has what its own line says, which is what the user wrote exactly if that holds no newline and no backslash; any other name is managed. |
| ConfLines.FileReads | crates/pgpod-pg/src/conf.rs:333-339 | A rendered file is read entry by entry, each as its own line and the lines its value has behind, whatever the values hold. |
| ConfLines.ValueOnItsLine | crates/pgpod-pg/src/conf.rs:333-335 | A value is read from its line as it was written exactly if it is readable, and one of a single line has nothing behind. |
| ConfLines.AValueCanSetAnything | crates/pgpod-pg/src/conf.rs:293-335 | One accepted parameter of a harmless name can set any other name to any word, on every host. |
| ConfLines.AValueTurnsArchivingOff | crates/pgpod-pg/src/conf.rs:293-335 | The concrete value that turns archiving off where the managed file has it on. |
| ConfLines.RecoverabilityIsRead | crates/pgpod-pg/src/conf.rs:193-217 | Of every managed file that can be read: `wal_level`, `wal_log_hints` and `archive_mode` are in force as rendered on every host if and only if the lines behind its values hold no directive and give none of the three another value. |
| ConfLines.ALibraryTurnsArchivingOff | crates/pgpod-pg/src/conf.rs:228-235 | A library name that turns archiving off where a command was given. |
| Conf.FilesAsWritten | crates/pgpod-pg/src/conf.rs:7-15 | For values of one line and without a backslash and no directive: reserved parameters are as managed, user parameters exactly as supplied, everything else managed. |
| Conf.AnIncludeIsAccepted | crates/pgpod-pg/src/conf.rs:293-324 | The parameter `include_if_exists`, with any readable path, is accepted, and some content of that file gives any reserved name any value. |
| Conf.IncludeOverrides | crates/pgpod-pg/src/conf.rs:293-324 | The same for any accepted parameters of which one is named like a directive. |
| Conf.FilesAreRead | crates/pgpod-pg/src/conf.rs:7-15 | The two files together are read as what they were meant to say if and only if no value in either holds a newline or a backslash. |
| Conf.UserSettingsOver | crates/pgpod-pg/src/conf.rs:41-62 | Over any managed settings and on any host, a user's file without directives leaves reserved and unnamed parameters alone. |
| Conf.UserValueIsExact | crates/pgpod-pg/src/conf.rs:293-317 | With names distinct after normalising and no directive among them, a user's parameter has exactly the supplied string on any host. |
| Conf.UserFileIsRead | crates/pgpod-pg/src/conf.rs:293-317 | The user's file says the normalised parameters in the order of their keys; it is read as that exactly if every value is readable, and says nothing but settings exactly if no parameter is named like a directive. |
| Conf.ManagedIsRead | crates/pgpod-pg/src/conf.rs:177-285 | In every configuration the managed file has no directive, and it is read as what it was meant to say if and only if no value in it holds a newline or a backslash. |
| Conf.RecoverabilityIsManaged | crates/pgpod-pg/src/conf.rs:193-217 | In every configuration the entries written give `wal_level`, `wal_log_hints` and `archive_mode` the values recovery depends on. |
| Conf.FileIsRead | crates/pgpod-pg/src/conf.rs:333-339 | A file is read as what its entries were meant to set, in order, if and only if no quoted value in it holds a newline or a backslash. |
| Ids.PrintThenParse | crates/pgpod-core/src/ids.rs:144-169 | Parsing a printed instance ID gives it back, for every valid cluster name and ordinal from 1. |
| Ids.AcceptsExactly | crates/pgpod-core/src/ids.rs:155-169 | A text is accepted if and only if it is a cluster name, a dash and a number from 1 in a spelling the standard parser takes. |
| Ids.NamesAreInjective | crates/pgpod-core/src/ids.rs:108-135 | Two instances never share a container, a volume or a slot. |
| Ids.PoolerClashIsExact | crates/pgpod-core/src/ids.rs:195-204 | A pooler shares an instance's container name if and only if the cluster is `pooler-` and something, and the pooler that something and the ordinal. |
| Duration.RenderThenParse | crates/pgpod-core/src/duration.rs:52-66 | A rendered duration reads back, for every 64-bit number of milliseconds. |
| Duration.AcceptsExactly | crates/pgpod-core/src/duration.rs:78-103 | A text is accepted if and only if, trimmed, it is digits and a unit whose scaled value fits 64 bits. |
| Duration.RenderNamesAUnit | crates/pgpod-core/src/duration.rs:48-51 | A rendered duration is never a bare number. |
| Backup.SortThenSearchIsAScan | crates/pgpod-backup/src/info.rs:207-211 | Sorting a copy and searching it from the end equals one scan for the newest that qualifies, ties to the later entry, and finds none exactly if none does. |
| Backup.FindLastOfInsert | crates/pgpod-backup/src/info.rs:172-176 | Inserting one backup into a sorted list changes the answer only if it serves and is newer. |
| Backup.LatestIsInHistory | crates/pgpod-backup/src/info.rs:199-205 | The current version is that of the largest history ID. |
| Backup.NewestHistoryIsCurrent | crates/pgpod-backup/src/info.rs:190-205 | A backup taken against the newest history entry is of the current version. |

## Left out

- Podman, SQLite, sockets and files themselves: each call is a step that succeeds,
  fails, or is cut off by a kill.
- Two pgpod processes at once, and the daemon's lock: that guarantee is the kernel's.
- Timeouts, sleeps and readiness polling: each is an outcome.
- The events log: it is written and never read for a decision.
- Restore, an explicit image, credential rotation, secrets, networks, host port
  allocation and the archive volume: creating them can fail, and that is all of
  them that the control plane's state shows.
- Refusals before anything is read, such as reserved parameters in a manifest: they
  change nothing.
- Pools that the pooler has not created yet: a verb skips them, and the flags in
  `ControlPlane` count them as covered. `AdminClient.ForEachPool` has the skip.
- Applying and deleting a pooler, other than its rows, its pools and its mounts.
- The agent's own processes: supervision, and the inside of the upgrade job.
- MD5: any function. JSON and YAML: an encoding is compared as a whole.
- UTF-8: strings in messages are bytes. In HTTP heads and size lines a byte that is
  not ASCII is read as a replacement character, so white space outside ASCII is
  never trimmed there.
- The spelling of error messages and of comments in the configuration files.
- Octal escapes in a configuration file: the reader takes one character for an
  escape, where PostgreSQL may take three.
- What a directory of configuration files holds: a directive comes to some settings or
  fails, and the settings of its files are taken in the order they are found.
- The instant a backup ended when its stop time is outside the calendar's range.
- Http.ChunkedResponseIsRecovered: the line break behind a chunk's data is skipped
  without being checked, so nothing is claimed about responses that are not well
  formed, other than what truncation does to them.
- Daemon.Host.ResumeWith: ports held by other processes are the same throughout one
  run, and a container's own port is not counted against another unit.
- Holds.StrandedExactly: verbs of two requests that are interleaved pool by pool.
- ControlPlane.Pgpod.Upgrade: the warnings it collects and the report it returns are
  not modelled, only how it ended.
- Tables of fixed text, initdb and HBA rendering, `doctor`, and the command line:
  they would only add easy members.
