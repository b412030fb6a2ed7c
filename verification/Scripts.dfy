/**
  How the calls a process makes to the outside end, one entry for each call. Once
  the entries are used up the process is dead.
*/
module Scripts {
  /**
    `Partly(n)` reports failure after `n` units of the work: a container call that
    did its work and failed to say so, or a pause that stopped halfway through the
    pools of a pooler.
  */
  datatype Outcome = Done | Partly(units: nat)

  function Rest(script: seq<Outcome>): (left: seq<Outcome>)
    ensures |left| == if script == [] then 0 else |script| - 1
  {
    if script == [] then [] else script[1..]
  }

  function From(script: seq<Outcome>, n: nat): (left: seq<Outcome>)
    ensures |left| == if n <= |script| then |script| - n else 0
  {
    if n <= |script| then script[n..] else []
  }

  /** A dead process achieves nothing. */
  function OutcomeAt(script: seq<Outcome>, i: nat): Outcome {
    if i < |script| then script[i] else Partly(0)
  }

  predicate Fine(script: seq<Outcome>, i: nat) {
    OutcomeAt(script, i).Done?
  }

  predicate AllDone(script: seq<Outcome>, first: nat, count: nat) {
    forall i :: first <= i < first + count ==> Fine(script, i)
  }

  lemma FromFurther(script: seq<Outcome>, n: nat, m: nat)
    ensures From(From(script, n), m) == From(script, n + m)
    ensures Rest(From(script, n)) == From(script, n + 1) && From(script, 0) == script
  {
  }

  lemma FineFurther(script: seq<Outcome>, n: nat, i: nat)
    ensures OutcomeAt(From(script, n), i) == OutcomeAt(script, n + i)
    ensures Fine(From(script, n), i) <==> Fine(script, n + i)
  {
  }

  lemma AllDoneFurther(script: seq<Outcome>, n: nat, first: nat, count: nat)
    ensures AllDone(From(script, n), first, count) <==> AllDone(script, n + first, count)
  {
    forall i: nat ensures Fine(From(script, n), i) <==> Fine(script, n + i) {
      FineFurther(script, n, i);
    }
    if AllDone(From(script, n), first, count) {
      forall i | n + first <= i < n + first + count ensures Fine(script, i) {
        assert Fine(From(script, n), i - n);
      }
    }
  }

  lemma AllDoneInParts(script: seq<Outcome>, first: nat, count: nat, more: nat)
    ensures AllDone(script, first, count + more) <==> AllDone(script, first, count) && AllDone(script, first + count, more)
  {
  }
}
