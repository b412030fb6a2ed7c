/** Names of clusters, instances and poolers, and everything podman sees that is derived from them. */
module Ids {
  import opened Wrappers
  import opened Text

  datatype IdError =
    | BadClusterName(name: string)
    | MissingOrdinal(text: string)
    | ZeroOrdinal(text: string)

  predicate ValidNameChar(c: char) {
    IsLower(c) || IsDigit(c) || c == '-'
  }

  predicate ValidName(name: string) {
    && 1 <= |name| <= 40
    && IsLower(name[0]) && name[|name| - 1] != '-'
    && forall i :: 0 <= i < |name| ==> ValidNameChar(name[i])
  }

  function NewCluster(name: string): Result<string, IdError> {
    if ValidName(name) then Ok(name) else Err(BadClusterName(name))
  }

  datatype InstanceId = InstanceId(cluster: string, ordinal: nat) {
    predicate Valid() {
      ValidName(cluster) && 1 <= ordinal <= U32_MAX
    }

    function Print(): string {
      cluster + "-" + Digits(ordinal)
    }

    function ContainerName(): string {
      "pgpod-" + Print()
    }

    function VolumeName(): string {
      "pgpod-" + Print() + "-pgdata"
    }

    /** Slot names allow no `-`, so every one of them becomes `_`. */
    function SlotName(): string {
      "pgpod_" + Underscored(cluster) + "_" + Digits(ordinal)
    }
  }

  function PoolerContainerName(pooler: string): string {
    "pgpod-pooler-" + pooler
  }

  function Underscored(s: string): (r: string)
    ensures |r| == |s|
    ensures forall i :: 0 <= i < |s| ==> r[i] == if s[i] == '-' then '_' else s[i]
  {
    seq(|s|, i requires 0 <= i < |s| => if s[i] == '-' then '_' else s[i])
  }

  function LastDash(s: string): (at: Option<nat>)
    ensures at.Some? ==> at.value < |s| && s[at.value] == '-'
  {
    if s == "" then None
    else if s[|s| - 1] == '-' then Some(|s| - 1)
    else LastDash(s[..|s| - 1])
  }

  /** Split on the last `-`, because a cluster name may itself contain one. */
  function ParseInstance(s: string): Result<InstanceId, IdError> {
    match LastDash(s)
    case None => Err(MissingOrdinal(s))
    case Some(dash) =>
      match ParseUnsigned(s[dash + 1..], U32_MAX)
      case None => Err(MissingOrdinal(s))
      case Some(ordinal) =>
        if ordinal == 0 then Err(ZeroOrdinal(s))
        else match NewCluster(s[..dash])
          case Err(e) => Err(e)
          case Ok(cluster) => Ok(InstanceId(cluster, ordinal))
  }

  /** The last `-` of a text that ends in something without one. */
  lemma {:induction false} LastDashBefore(front: string, back: string)
    requires '-' !in back
    ensures LastDash(front + "-" + back) == Some(|front|)
  {
    var s := front + "-" + back;
    if back == "" {
      assert s[|s| - 1] == '-';
    } else {
      var shorter := back[..|back| - 1];
      assert s[|s| - 1] == back[|back| - 1];
      assert s[..|s| - 1] == front + "-" + shorter;
      LastDashBefore(front, shorter);
    }
  }

  lemma UnsignedHasNoDash(s: string, max: nat)
    requires ParseUnsigned(s, max).Some?
    ensures '-' !in s
  {
    forall i | 0 <= i < |s| ensures s[i] != '-' {
      assert s[0] == '+' && i > 0 ==> s[1..][i - 1] == s[i];
    }
  }

  /**
    What is accepted: a cluster name, `-`, and a number from 1 in any spelling the
    standard parser takes. Leading zeros and one `+` are therefore accepted too.
  */
  lemma AcceptsExactly(s: string, id: InstanceId)
    ensures ParseInstance(s) == Ok(id) <==> exists t :: Spells(s, id, t)
  {
    if ParseInstance(s) == Ok(id) {
      var t := WhatIsReadSpells(s, id);
    }
    if t :| Spells(s, id, t) {
      SpellingIsRead(s, id, t);
    }
  }

  predicate Spells(s: string, id: InstanceId, t: string) {
    s == id.cluster + "-" + t && id.Valid() && ParseUnsigned(t, U32_MAX) == Some(id.ordinal)
  }

  lemma WhatIsReadSpells(s: string, id: InstanceId) returns (t: string)
    requires ParseInstance(s) == Ok(id)
    ensures Spells(s, id, t)
  {
    hide ValidName, LastDash, ParseUnsigned;
    var dash := LastDash(s).value;
    t := s[dash + 1..];
    SplitAtDash(s, dash);
    ParsedFits(t);
  }

  lemma SplitAtDash(s: string, dash: nat)
    requires dash < |s| && s[dash] == '-'
    ensures s == s[..dash] + "-" + s[dash + 1..]
  {
  }

  lemma ParsedFits(t: string)
    ensures ParseUnsigned(t, U32_MAX).Some? ==> ParseUnsigned(t, U32_MAX).value <= U32_MAX
  {
  }

  lemma SpellingIsRead(s: string, id: InstanceId, t: string)
    requires Spells(s, id, t)
    ensures ParseInstance(s) == Ok(id)
  {
    UnsignedHasNoDash(t, U32_MAX);
    LastDashBefore(id.cluster, t);
    assert s[|id.cluster| + 1..] == t && s[..|id.cluster|] == id.cluster;
  }

  /** Parsing a printed id gives it back. */
  lemma PrintThenParse(id: InstanceId)
    requires id.Valid()
    ensures ParseInstance(id.Print()) == Ok(id)
  {
    ParseDigits(id.ordinal, U32_MAX);
    SpellingIsRead(id.Print(), id, Digits(id.ordinal));
  }

  /** Two instances never share a container, a volume or a replication slot. */
  lemma NamesAreInjective(a: InstanceId, b: InstanceId)
    requires a.Valid() && b.Valid()
    requires a.ContainerName() == b.ContainerName() || a.VolumeName() == b.VolumeName() || a.SlotName() == b.SlotName()
    ensures a == b
  {
    if a.SlotName() == b.SlotName() {
      SlotsAreInjective(a, b);
    } else {
      assert a.ContainerName()[6..] == a.Print() && b.ContainerName()[6..] == b.Print();
      PrefixesAgree("pgpod-" + a.Print(), "pgpod-" + b.Print(), "-pgdata");
      PrintThenParse(a);
      PrintThenParse(b);
    }
  }

  lemma PrefixesAgree(x: string, y: string, suffix: string)
    ensures x + suffix == y + suffix ==> x == y
  {
    assert (x + suffix)[..|x|] == x && (y + suffix)[..|y|] == y;
  }

  /** A text that is split at its only mark of one kind from the right is split in one way. */
  lemma SplitsOnce(x: string, y: string, u: string, v: string, mark: char)
    requires x + [mark] + u == y + [mark] + v && mark !in u && mark !in v
    ensures x == y && u == v
  {
    var s := x + [mark] + u;
    assert s[|x|] == mark && s[|y|] == mark;
    assert forall k :: |x| < k < |s| ==> s[k] == u[k - |x| - 1];
    assert forall k :: |y| < k < |s| ==> s[k] == v[k - |y| - 1];
    assert s[..|x|] == x && s[..|y|] == y;
    assert s[|x| + 1..] == u && s[|y| + 1..] == v;
  }

  lemma SlotsAreInjective(a: InstanceId, b: InstanceId)
    requires a.Valid() && b.Valid() && a.SlotName() == b.SlotName()
    ensures a == b
  {
    var x, y := "pgpod_" + Underscored(a.cluster), "pgpod_" + Underscored(b.cluster);
    SplitsOnce(x, y, Digits(a.ordinal), Digits(b.ordinal), '_');
    DigitsAreInjective(a.ordinal, b.ordinal);
    assert x[6..] == Underscored(a.cluster) && y[6..] == Underscored(b.cluster);
    assert |a.cluster| == |b.cluster|;
    forall i | 0 <= i < |a.cluster| ensures a.cluster[i] == b.cluster[i] {
      assert ValidNameChar(a.cluster[i]) && ValidNameChar(b.cluster[i]);
      assert Underscored(a.cluster)[i] == Underscored(b.cluster)[i];
    }
  }

  /**
    Pooler containers have their own prefix, which keeps them apart from instance
    containers except here: the cluster is itself called `pooler-` and something,
    and the pooler is that something with the ordinal behind it.
  */
  predicate Clashes(pooler: string, id: InstanceId) {
    && StartsWith(id.cluster, "pooler-")
    && pooler == id.cluster[7..] + "-" + Digits(id.ordinal)
  }

  lemma PoolerClashIsExact(pooler: string, id: InstanceId)
    requires ValidName(pooler) && id.Valid()
    ensures PoolerContainerName(pooler) == id.ContainerName() <==> Clashes(pooler, id)
  {
    var left, right := "pooler-" + pooler, id.Print();
    assert PoolerContainerName(pooler) == "pgpod-" + left;
    assert PoolerContainerName(pooler)[6..] == left && id.ContainerName()[6..] == right;
    if left == right {
      OneIsTheOther(pooler, id);
    }
    if Clashes(pooler, id) {
      assert id.cluster == "pooler-" + id.cluster[7..];
      assert left == right;
    }
  }

  lemma OneIsTheOther(pooler: string, id: InstanceId)
    requires ValidName(pooler) && id.Valid() && "pooler-" + pooler == id.Print()
    ensures Clashes(pooler, id)
  {
    var c, d := id.cluster, Digits(id.ordinal);
    var s := "pooler-" + pooler;
    assert s[|c|] == '-' && s[|c| + 1] == d[0];
    assert |c| >= 6 by {
      assert forall i :: 0 <= i < 6 ==> s[i] == "pooler"[i] && s[i] != '-';
    }
    assert s[7] == pooler[0];
    assert |c| >= 7;
    assert s[..7] == "pooler-" && s[..|c|] == c;
    assert c[..7] == "pooler-";
    assert s[7..] == pooler && s[7..] == c[7..] + "-" + d;
  }
}
