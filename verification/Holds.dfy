/**
  The agent beside a pooler: it pauses and resumes the pools of one cluster at a time,
  and a pause arms a deadline that lets the clients go if nothing else does. Requests
  are taken one after the other; an armed deadline can come at any point between them.
*/
module Holds {
  import opened Poolers
  import opened Scripts

  /** Each hold has a generation, counted per cluster; a deadline is armed for one of them. */
  datatype State = State(paused: set<string>, holds: map<string, nat>, armed: set<(string, nat)>)

  datatype Event =
    | Pause(cluster: string, outcome: Outcome)
    | Resume(cluster: string, outcome: Outcome)
    | Deadline(cluster: string, generation: nat, outcome: Outcome)

  function Generation(s: State, cluster: string): nat {
    if cluster in s.holds then s.holds[cluster] else 0
  }

  /** The pools one verb gets to: all of the cluster's, or some of the first. */
  function Through(pools: seq<PoolTarget>, e: Event): set<string> {
    var names := PoolsFor(pools, e.cluster);
    var reached := if e.outcome.Done? || e.outcome.units > |names| then names else names[..e.outcome.units];
    set n | n in reached
  }

  /** A verb for a cluster without pools fails before anything is sent. */
  predicate Succeeds(pools: seq<PoolTarget>, e: Event) {
    e.outcome.Done? && PoolsFor(pools, e.cluster) != []
  }

  function Bumped(s: State, cluster: string): State {
    s.(holds := s.holds[cluster := Generation(s, cluster) + 1])
  }

  /** A deadline that is armed, and for the hold that there is now. */
  predicate IsDue(s: State, e: Event) {
    e.Deadline? && (e.cluster, e.generation) in s.armed && e.generation == Generation(s, e.cluster)
  }

  function Next(pools: seq<PoolTarget>, s: State, e: Event): State {
    match e
    case Pause(cluster, _) =>
      var after := s.(paused := s.paused + Through(pools, e));
      if Succeeds(pools, e) then
        var held := Bumped(after, cluster);
        held.(armed := held.armed + {(cluster, Generation(held, cluster))})
      else after
    case Resume(cluster, _) =>
      Bumped(s, cluster).(paused := s.paused - Through(pools, e))
    case Deadline(cluster, generation, _) =>
      var after := s.(armed := s.armed - {(cluster, generation)});
      if IsDue(s, e) then Bumped(after, cluster).(paused := s.paused - Through(pools, e)) else after
  }

  function Start(): State {
    State({}, map[], {})
  }

  function Run(pools: seq<PoolTarget>, events: seq<Event>): State {
    if events == [] then Start()
    else Next(pools, Run(pools, events[..|events| - 1]), events[|events| - 1])
  }

  // ---- the agent ---------------------------------------------------

  class Agent {
    const pools: seq<PoolTarget>
    var paused: set<string>
    var holds: map<string, nat>
    var armed: set<(string, nat)>

    constructor (pools: seq<PoolTarget>)
      ensures this.pools == pools && Here() == Start()
    {
      this.pools := pools;
      paused, holds, armed := {}, map[], {};
    }

    function Here(): State
      reads `paused, `holds, `armed
    {
      State(paused, holds, armed)
    }

    /** Only a pause that got to every pool arms a deadline. */
    method Pause(cluster: string, outcome: Outcome) returns (ok: bool)
      modifies `paused, `holds, `armed
      ensures Here() == Next(pools, old(Here()), Event.Pause(cluster, outcome))
      ensures ok <==> Succeeds(pools, Event.Pause(cluster, outcome))
    {
      var e := Event.Pause(cluster, outcome);
      paused := paused + Through(pools, e);
      ok := Succeeds(pools, e);
      if ok {
        var generation := (if cluster in holds then holds[cluster] else 0) + 1;
        holds := holds[cluster := generation];
        armed := armed + {(cluster, generation)};
      }
    }

    /** The generation moves on before the verb is sent, whatever comes of that. */
    method Resume(cluster: string, outcome: Outcome) returns (ok: bool)
      modifies `paused, `holds
      ensures Here() == Next(pools, old(Here()), Event.Resume(cluster, outcome))
      ensures ok <==> Succeeds(pools, Event.Resume(cluster, outcome))
    {
      var e := Event.Resume(cluster, outcome);
      holds := holds[cluster := (if cluster in holds then holds[cluster] else 0) + 1];
      paused := paused - Through(pools, e);
      ok := Succeeds(pools, e);
    }

    /** A deadline comes: it counts only if no pause or resume of its cluster came since. */
    method Deadline(cluster: string, generation: nat, outcome: Outcome)
      modifies `paused, `holds, `armed
      ensures Here() == Next(pools, old(Here()), Event.Deadline(cluster, generation, outcome))
    {
      if (cluster, generation) !in armed {
        assert armed - {(cluster, generation)} == armed;
        return;
      }
      armed := armed - {(cluster, generation)};
      if generation == if cluster in holds then holds[cluster] else 0 {
        var _ := Resume(cluster, outcome);
      }
    }

    /** Any sequence of requests and deadlines. */
    method Serve(events: seq<Event>)
      requires Here() == Start()
      modifies `paused, `holds, `armed
      ensures Here() == Run(pools, events)
    {
      for i := 0 to |events|
        invariant Here() == Run(pools, events[..i])
      {
        match events[i] {
          case Pause(cluster, outcome) => var _ := Pause(cluster, outcome);
          case Resume(cluster, outcome) => var _ := Resume(cluster, outcome);
          case Deadline(cluster, generation, outcome) => Deadline(cluster, generation, outcome);
        }
        assert events[..i + 1][..i] == events[..i];
      }
      assert events[..|events|] == events;
    }
  }

  // ---- who is left waiting -----------------------------------------

  /** A deadline is armed that would let the cluster's clients go. */
  predicate Guarded(s: State, cluster: string) {
    (cluster, Generation(s, cluster)) in s.armed
  }

  /** Paused, and nothing is armed to end that. */
  predicate Stranded(s: State, cluster: string, name: string) {
    name in s.paused && !Guarded(s, cluster)
  }

  predicate Resumes(s: State, e: Event, cluster: string) {
    e.cluster == cluster && (e.Resume? || IsDue(s, e))
  }

  /** A failed pause that got to the pool with no deadline armed, or a resume that did not get to it. */
  predicate Strands(pools: seq<PoolTarget>, s: State, e: Event, cluster: string, name: string) {
    || (e.Pause? && e.cluster == cluster && !Succeeds(pools, e) && name in Through(pools, e) && !Guarded(s, cluster))
    || (Resumes(s, e, cluster) && name in s.paused && name !in Through(pools, e))
  }

  /** A pause that succeeded, or a resume that got to the pool. */
  predicate Rescues(pools: seq<PoolTarget>, s: State, e: Event, cluster: string, name: string) {
    || (e.Pause? && e.cluster == cluster && Succeeds(pools, e))
    || (Resumes(s, e, cluster) && name in Through(pools, e))
  }

  /** Deadlines are armed for generations that there have been. */
  predicate Sound(s: State) {
    forall t :: t in s.armed ==> t.1 <= Generation(s, t.0)
  }

  lemma OneEvent(pools: seq<PoolTarget>, s: State, e: Event, cluster: string, name: string)
    requires Sound(s) && DistinctStrings(Names(pools)) && name in PoolsFor(pools, cluster)
    ensures Sound(Next(pools, s, e))
    ensures Stranded(Next(pools, s, e), cluster, name)
       <==> Strands(pools, s, e, cluster, name) || (Stranded(s, cluster, name) && !Rescues(pools, s, e, cluster, name))
  {
    hide PoolsFor;
    if e.cluster != cluster && name in Through(pools, e) {
      HoldsDoNotOverlap(pools, cluster, e.cluster, name);
    }
  }

  predicate StrandedAt(pools: seq<PoolTarget>, events: seq<Event>, i: nat, cluster: string, name: string)
    requires i < |events|
  {
    Strands(pools, Run(pools, events[..i]), events[i], cluster, name)
  }

  predicate RescuedAt(pools: seq<PoolTarget>, events: seq<Event>, i: nat, cluster: string, name: string)
    requires i < |events|
  {
    Rescues(pools, Run(pools, events[..i]), events[i], cluster, name)
  }

  /** Event `i` strands the pool, and none after it rescues it. */
  predicate Cause(pools: seq<PoolTarget>, events: seq<Event>, i: nat, cluster: string, name: string)
    requires i < |events|
  {
    && StrandedAt(pools, events, i, cluster, name)
    && forall j :: i < j < |events| ==> !RescuedAt(pools, events, j, cluster, name)
  }

  predicate HasCause(pools: seq<PoolTarget>, events: seq<Event>, cluster: string, name: string) {
    exists i :: 0 <= i < |events| && Cause(pools, events, i, cluster, name)
  }

  lemma CauseGoesOn(pools: seq<PoolTarget>, events: seq<Event>, cluster: string, name: string)
    requires events != []
    ensures var n := |events| - 1;
            HasCause(pools, events, cluster, name)
            <==> StrandedAt(pools, events, n, cluster, name)
                 || (HasCause(pools, events[..n], cluster, name) && !RescuedAt(pools, events, n, cluster, name))
  {
    hide Strands, Rescues, Run;
    var n := |events| - 1;
    var front := events[..n];
    forall i | 0 <= i < n
      ensures StrandedAt(pools, events, i, cluster, name) <==> StrandedAt(pools, front, i, cluster, name)
      ensures RescuedAt(pools, events, i, cluster, name) <==> RescuedAt(pools, front, i, cluster, name)
    {
      assert front[..i] == events[..i];
    }
    if StrandedAt(pools, events, n, cluster, name) {
      assert Cause(pools, events, n, cluster, name);
    } else if HasCause(pools, events, cluster, name) {
      var i :| 0 <= i < |events| && Cause(pools, events, i, cluster, name);
      assert Cause(pools, front, i, cluster, name);
    } else if HasCause(pools, front, cluster, name) {
      var i :| 0 <= i < |front| && Cause(pools, front, i, cluster, name);
      assert !Cause(pools, events, i, cluster, name);
    }
  }

  /**
    Over any run: a pool is paused with no deadline to end that exactly if, with no
    successful pause and no resume that got to it since, a pause failed after it got to
    the pool, or a resume failed before it did. Requests for other clusters do not
    matter, and no deadline that is already cancelled does.
  */
  lemma {:induction false} StrandedExactly(pools: seq<PoolTarget>, events: seq<Event>, cluster: string, name: string)
    requires DistinctStrings(Names(pools)) && name in PoolsFor(pools, cluster)
    ensures Sound(Run(pools, events))
    ensures Stranded(Run(pools, events), cluster, name) <==> HasCause(pools, events, cluster, name)
    decreases |events|
  {
    hide Strands, Rescues, Stranded, Next, PoolsFor, Sound, HasCause;
    if events == [] {
      NothingAtStart(pools, cluster, name);
    } else {
      var n := |events| - 1;
      StrandedExactly(pools, events[..n], cluster, name);
      OneEvent(pools, Run(pools, events[..n]), events[n], cluster, name);
      CauseGoesOn(pools, events, cluster, name);
    }
  }

  lemma NothingAtStart(pools: seq<PoolTarget>, cluster: string, name: string)
    ensures Sound(Start()) && !Stranded(Start(), cluster, name) && !HasCause(pools, [], cluster, name)
  {
  }

  /** As long as every verb succeeds, no pool is ever paused without a deadline. */
  lemma NobodyStrandedWithoutFailures(pools: seq<PoolTarget>, events: seq<Event>, cluster: string, name: string)
    requires DistinctStrings(Names(pools)) && name in PoolsFor(pools, cluster)
    requires forall e :: e in events ==> e.outcome.Done?
    ensures !Stranded(Run(pools, events), cluster, name)
  {
    hide Run, PoolsFor;
    StrandedExactly(pools, events, cluster, name);
    forall i | 0 <= i < |events| ensures !StrandedAt(pools, events, i, cluster, name) {
      assert events[i] in events;
      assert events[i].cluster == cluster ==> name in Through(pools, events[i]) by {
        DoneReachesAll(pools, events[i], name);
      }
    }
  }

  lemma DoneReachesAll(pools: seq<PoolTarget>, e: Event, name: string)
    requires e.outcome.Done?
    ensures name in Through(pools, e) <==> name in PoolsFor(pools, e.cluster)
  {
  }

  /** After a pause that succeeded its deadline alone is enough: if it comes next and succeeds, no pool waits. */
  lemma TheDeadlineLetsGo(pools: seq<PoolTarget>, events: seq<Event>, cluster: string, name: string)
    requires DistinctStrings(Names(pools)) && name in PoolsFor(pools, cluster)
    ensures var held := Next(pools, Run(pools, events), Pause(cluster, Done));
            var later := Next(pools, held, Deadline(cluster, Generation(held, cluster), Done));
            name in held.paused && Guarded(held, cluster) && name !in later.paused
  {
    hide PoolsFor;
    StrandedExactly(pools, events, cluster, name);
    DoneReachesAll(pools, Pause(cluster, Done), name);
    DoneReachesAll(pools, Deadline(cluster, 0, Done), name);
  }

  /** A resume that fails cancels the deadline: the pool it did not get to waits, and the deadline changes nothing. */
  lemma AFailedResumeStrands(pools: seq<PoolTarget>, cluster: string, name: string)
    requires DistinctStrings(Names(pools)) && name in PoolsFor(pools, cluster)
    ensures var s := Run(pools, [Pause(cluster, Done), Resume(cluster, Partly(0))]);
            && Stranded(s, cluster, name)
            && name in Next(pools, s, Deadline(cluster, 1, Done)).paused
  {
    hide PoolsFor;
    var events := [Pause(cluster, Done), Resume(cluster, Partly(0))];
    assert events[..1] == [Pause(cluster, Done)] && events[..1][..0] == [];
    assert Run(pools, events[..1]) == Next(pools, Start(), Pause(cluster, Done));
    DoneReachesAll(pools, Pause(cluster, Done), name);
  }
}
