/** The phases the registry stores, and what each one lets boot recovery do. */
module Lifecycle {
  datatype InstancePhase =
    | Creating
    | Bootstrapping
    | Running
    | Stopping
    | Stopped
    | Fenced
    | NeedsRebuild
    | Failed
    | Terminated
  {
    /** Recovery leaves an instance in this phase down. */
    predicate BlocksRestart() {
      Fenced? || NeedsRebuild? || Stopped? || Terminated?
    }
  }

  datatype ClusterPhase = Applying | Running | Upgrading | Stopped | Failed | Unknown {
    function AsStr(): string {
      match this
      case Applying => "applying"
      case Running => "running"
      case Upgrading => "upgrading"
      case Stopped => "stopped"
      case Failed => "failed"
      case Unknown => "unknown"
    }

    /** Only a cluster whose last operation completed may have its containers started at boot. */
    predicate Resumable() {
      Running?
    }
  }

  /** Parse a stored phase; anything unrecognised is `Unknown`, never an error. */
  function ParseLenient(s: string): ClusterPhase {
    if s == "applying" then Applying
    else if s == "running" then ClusterPhase.Running
    else if s == "upgrading" then Upgrading
    else if s == "stopped" then ClusterPhase.Stopped
    else if s == "failed" then ClusterPhase.Failed
    else Unknown
  }

  /** Every phase survives storage, and no other text is ever taken for `Running`. */
  lemma PhasesSurviveStorage(p: ClusterPhase, s: string)
    ensures ParseLenient(p.AsStr()) == p
    ensures ParseLenient(s).Resumable() ==> s == "running"
    ensures ParseLenient(s) != Unknown ==> ParseLenient(s).AsStr() == s
  {
    assert "applying"[0] == 'a' && "running"[0] == 'r' && "upgrading"[0] == 'u' && "stopped"[0] == 's'
        && "failed"[0] == 'f' && "unknown"[0] == 'u' && |"unknown"| != |"upgrading"|;
  }

  /** What boot recovery decides about one container before it acts. */
  datatype Decision = Adopt | Start | Skip | Missing

  /** What boot recovery reports about one container afterwards. */
  datatype ResumeAction = Adopted | Started | WouldStart | Skipped | MissingContainer | FailedToStart

  /** What podman reports about one container. */
  datatype Probe = Absent | Present(running: bool)

  function Decide(cluster: ClusterPhase, instance: InstancePhase, probe: Probe): Decision {
    if !cluster.Resumable() then Skip
    else if instance.BlocksRestart() then Skip
    else match probe
      case Absent => Missing
      case Present(running) => if running then Adopt else Start
  }
}
