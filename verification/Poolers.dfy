/** Pools and the clusters behind them: naming them, scoping a hold to a cluster, mounting their secrets. */
module Poolers {
  import opened Wrappers
  import opened Text
  import opened Sorting

  /** One pool of a pooler, as far as its name, its cluster and its credential go. */
  datatype PoolTarget = PoolTarget(
    name: string,
    cluster: string,
    serverHost: string,
    database: string,
    lookupSecretIndex: nat
  )

  datatype Pooler = Pooler(name: string, pools: seq<PoolTarget>)

  function Names(pools: seq<PoolTarget>): (names: seq<string>)
    ensures |names| == |pools|
    ensures forall i :: 0 <= i < |pools| ==> names[i] == pools[i].name
  {
    seq(|pools|, i requires 0 <= i < |pools| => pools[i].name)
  }

  predicate DistinctStrings(s: seq<string>) {
    forall i, j :: 0 <= i < j < |s| ==> s[i] != s[j]
  }

  /** The names of those pools that lead to `cluster`. */
  function PoolsFor(pools: seq<PoolTarget>, cluster: string): seq<string> {
    if pools == [] then []
    else if pools[0].cluster == cluster then [pools[0].name] + PoolsFor(pools[1..], cluster)
    else PoolsFor(pools[1..], cluster)
  }

  lemma {:induction false} PoolsForIsExact(pools: seq<PoolTarget>, cluster: string, name: string)
    ensures name in PoolsFor(pools, cluster)
       <==> exists i :: 0 <= i < |pools| && pools[i].name == name && pools[i].cluster == cluster
  {
    if pools != [] {
      PoolsForIsExact(pools[1..], cluster, name);
      if i: nat :| i < |pools[1..]| && pools[1..][i].name == name && pools[1..][i].cluster == cluster {
        assert pools[i + 1].name == name && pools[i + 1].cluster == cluster;
      }
      if i: nat :| i < |pools| && pools[i].name == name && pools[i].cluster == cluster {
        assert i > 0 ==> pools[1..][i - 1] == pools[i];
      }
    }
  }

  /** A hold on one cluster names no pool of another. */
  lemma HoldsDoNotOverlap(pools: seq<PoolTarget>, a: string, b: string, name: string)
    requires DistinctStrings(Names(pools)) && a != b
    ensures !(name in PoolsFor(pools, a) && name in PoolsFor(pools, b))
  {
    PoolsForIsExact(pools, a, name);
    PoolsForIsExact(pools, b, name);
    forall i, j | 0 <= i < |pools| && 0 <= j < |pools| && pools[i].name == name == pools[j].name
      ensures pools[i].cluster == pools[j].cluster
    {
      assert Names(pools)[i] == Names(pools)[j];
    }
  }

  /** Drop repetitions that stand next to each other. */
  function Dedup(s: seq<string>): seq<string> {
    if |s| < 2 then s
    else if s[0] == s[1] then Dedup(s[1..])
    else [s[0]] + Dedup(s[1..])
  }

  function ClusterNames(pools: seq<PoolTarget>): (names: seq<string>)
    ensures |names| == |pools|
    ensures forall i :: 0 <= i < |pools| ==> names[i] == pools[i].cluster
  {
    seq(|pools|, i requires 0 <= i < |pools| => pools[i].cluster)
  }

  /** The clusters a pooler fronts, each once, in order. */
  function Clusters(pools: seq<PoolTarget>): seq<string> {
    Dedup(Sort(NotAfter, ClusterNames(pools)))
  }

  lemma {:induction false} DedupKeepsElements(s: seq<string>, x: string)
    ensures x in Dedup(s) <==> x in s
  {
    if |s| >= 2 {
      DedupKeepsElements(s[1..], x);
      assert s == [s[0]] + s[1..];
    }
  }

  lemma {:induction false} DedupOfSortedIsStrict(s: seq<string>)
    requires SortedBy(NotAfter, s)
    ensures forall i, j :: 0 <= i < j < |Dedup(s)| ==> Before(Dedup(s)[i], Dedup(s)[j])
  {
    if |s| >= 2 {
      DedupOfSortedIsStrict(s[1..]);
      if s[0] != s[1] {
        forall x | x in Dedup(s[1..]) ensures Before(s[0], x) {
          DedupKeepsElements(s[1..], x);
          var k :| 0 <= k < |s[1..]| && s[1..][k] == x;
          assert s[1 + k] == x && NotAfter(s[0], s[1]) && (k > 0 ==> NotAfter(s[1], s[1 + k]));
          if k > 0 && s[1] != x {
            BeforeIsTransitive(s[0], s[1], x);
          }
        }
      }
    }
  }

  lemma ClustersAreExact(pools: seq<PoolTarget>)
    ensures forall c :: c in Clusters(pools) <==> exists i :: 0 <= i < |pools| && pools[i].cluster == c
    ensures forall i, j :: 0 <= i < j < |Clusters(pools)| ==> Before(Clusters(pools)[i], Clusters(pools)[j])
  {
    var names := ClusterNames(pools);
    var sorted := Sort(NotAfter, names);
    StringsAreOrdered();
    SortSorts(NotAfter, names);
    SortPermutes(NotAfter, names);
    DedupOfSortedIsStrict(sorted);
    forall c ensures c in Clusters(pools) <==> exists i :: 0 <= i < |pools| && pools[i].cluster == c {
      DedupKeepsElements(sorted, c);
      assert c in sorted <==> c in multiset(sorted);
      assert c in names <==> c in multiset(names);
      if c in names {
        var i :| 0 <= i < |names| && names[i] == c;
        assert pools[i].cluster == c;
      }
      if i :| 0 <= i < |pools| && pools[i].cluster == c {
        assert names[i] == c;
      }
    }
  }

  /** The pools of the given clusters, cluster by cluster. */
  function Gather(pools: seq<PoolTarget>, clusters: seq<string>): seq<string> {
    if clusters == [] then [] else PoolsFor(pools, clusters[0]) + Gather(pools, clusters[1..])
  }

  lemma {:induction false} GatherStep(p: PoolTarget, rest: seq<PoolTarget>, clusters: seq<string>)
    requires DistinctStrings(clusters)
    ensures multiset(Gather([p] + rest, clusters))
         == multiset(Gather(rest, clusters)) + (if p.cluster in clusters then multiset{p.name} else multiset{})
  {
    if clusters != [] {
      GatherStep(p, rest, clusters[1..]);
      assert ([p] + rest)[1..] == rest;
      assert clusters == [clusters[0]] + clusters[1..];
    } else {
      assert Gather([p] + rest, clusters) == Gather(rest, clusters) == [];
    }
  }

  lemma {:induction false} GatherNothing(clusters: seq<string>)
    ensures Gather([], clusters) == []
  {
    if clusters != [] {
      GatherNothing(clusters[1..]);
    }
  }

  lemma {:induction false} GatherAll(pools: seq<PoolTarget>, clusters: seq<string>)
    requires DistinctStrings(clusters)
    requires forall p :: p in pools ==> p.cluster in clusters
    ensures multiset(Gather(pools, clusters)) == multiset(Names(pools))
  {
    if pools == [] {
      GatherNothing(clusters);
    } else {
      var first, rest := pools[0], pools[1..];
      assert pools == [first] + rest;
      assert first in pools && forall p :: p in rest ==> p in pools;
      GatherAll(rest, clusters);
      GatherStep(first, rest, clusters);
      NamesCons(first, rest);
    }
  }

  lemma NamesCons(p: PoolTarget, rest: seq<PoolTarget>)
    ensures multiset(Names([p] + rest)) == multiset(Names(rest)) + multiset{p.name}
  {
    assert Names([p] + rest) == [p.name] + Names(rest);
  }

  /** `PoolsFor` over `Clusters` partitions the pools: every pool once, whatever the manifest repeats. */
  lemma PoolsForPartitions(pools: seq<PoolTarget>)
    ensures multiset(Gather(pools, Clusters(pools))) == multiset(Names(pools))
  {
    ClustersAreExact(pools);
    var clusters := Clusters(pools);
    forall i, j | 0 <= i < j < |clusters| ensures clusters[i] != clusters[j] {
      BeforeIsTotal(clusters[i], clusters[j]);
    }
    forall p | p in pools ensures p.cluster in clusters {
      var i :| 0 <= i < |pools| && pools[i] == p;
      assert pools[i].cluster == p.cluster;
    }
    GatherAll(pools, clusters);
  }

  // ---- validation --------------------------------------------------

  datatype SpecError =
    | NoPools
    | ZeroPoolSize
    | ZeroHold
    | DuplicatePool(name: string)
    | NoServerHost(name: string)
    | NoDatabase(name: string)

  predicate ValidTarget(p: PoolTarget) {
    Trim(p.serverHost) != "" && Trim(p.database) != ""
  }

  ghost predicate Repeated(pools: seq<PoolTarget>, name: string) {
    exists i, j :: 0 <= i < j < |pools| && pools[i].name == pools[j].name == name
  }

  lemma Repeats(pools: seq<PoolTarget>, i: nat)
    requires i < |pools| && pools[i].name in Names(pools)[..i]
    ensures Repeated(pools, pools[i].name) && !DistinctStrings(Names(pools))
  {
    var k :| 0 <= k < i && Names(pools)[..i][k] == pools[i].name;
    assert pools[k].name == Names(pools)[k] == Names(pools)[i];
  }

  method Validate(pools: seq<PoolTarget>, poolSize: nat, maxHoldMillis: nat) returns (r: Result<(), SpecError>)
    ensures r.Ok? <==> && pools != [] && poolSize != 0 && maxHoldMillis != 0
                       && DistinctStrings(Names(pools))
                       && forall i :: 0 <= i < |pools| ==> ValidTarget(pools[i])
    ensures r.Err? && r.error.DuplicatePool? ==> Repeated(pools, r.error.name)
  {
    if pools == [] { return Err(NoPools); }
    if poolSize == 0 { return Err(ZeroPoolSize); }
    if maxHoldMillis == 0 { return Err(ZeroHold); }
    var seen: set<string> := {};
    ghost var names := Names(pools);
    for i := 0 to |pools|
      invariant forall x :: x in seen <==> x in names[..i]
      invariant DistinctStrings(names[..i])
      invariant forall k :: 0 <= k < i ==> ValidTarget(pools[k])
    {
      var p := pools[i];
      if p.name in seen {
        Repeats(pools, i);
        return Err(DuplicatePool(p.name));
      }
      seen := seen + {p.name};
      assert names[..i + 1] == names[..i] + [p.name];
      if Trim(p.serverHost) == "" { return Err(NoServerHost(p.name)); }
      if Trim(p.database) == "" { return Err(NoDatabase(p.name)); }
    }
    assert names[..|pools|] == names;
    return Ok(());
  }

  // ---- resolving pool names ----------------------------------------

  /** A pool as the manifest writes it; `asName` overrides the name clients use. */
  datatype PoolRef = PoolRef(database: string, asName: Option<string>) {
    function PoolName(): string {
      asName.GetOr(database)
    }
  }

  /** What a manifest says about one cluster, for a pooler. */
  datatype ClusterPools = ClusterPools(cluster: string, defaultDatabase: Option<string>, declared: seq<PoolRef>)

  datatype ResolvedPool = ResolvedPool(cluster: string, clusterIndex: nat, database: string, name: string)

  datatype ResolveError =
    | NoDefaultPool(cluster: string)
    | Collision(name: string, first: string, second: string, bothDefaulted: bool)

  predicate HasPools(input: ClusterPools) {
    input.declared != [] || input.defaultDatabase.Some?
  }

  /** The pools one cluster exports: those declared, or its application database under its own name. */
  function Exported(input: ClusterPools, index: nat): seq<ResolvedPool> {
    if input.declared != [] then
      seq(|input.declared|, i requires 0 <= i < |input.declared| =>
        ResolvedPool(input.cluster, index, input.declared[i].database, input.declared[i].PoolName()))
    else if input.defaultDatabase.Some? then
      [ResolvedPool(input.cluster, index, input.defaultDatabase.value, input.defaultDatabase.value)]
    else []
  }

  lemma ExportedIsItsOwn(input: ClusterPools, index: nat, k: nat)
    requires k < |Exported(input, index)|
    ensures Exported(input, index)[k].cluster == input.cluster && Exported(input, index)[k].clusterIndex == index
  {
  }

  /** The pools of the first `n` clusters, in manifest order. */
  function FlattenTo(inputs: seq<ClusterPools>, n: nat): seq<ResolvedPool>
    requires n <= |inputs|
  {
    if n == 0 then [] else FlattenTo(inputs, n - 1) + Exported(inputs[n - 1], n - 1)
  }

  function Flatten(inputs: seq<ClusterPools>): seq<ResolvedPool> {
    FlattenTo(inputs, |inputs|)
  }

  predicate DistinctPools(pools: seq<ResolvedPool>) {
    forall i, j :: 0 <= i < j < |pools| ==> pools[i].name != pools[j].name
  }

  lemma {:induction false} FlattenGrows(inputs: seq<ClusterPools>, n: nat, m: nat, k: nat)
    requires n <= m <= |inputs| && k < |FlattenTo(inputs, n)|
    ensures |FlattenTo(inputs, n)| <= |FlattenTo(inputs, m)|
    ensures FlattenTo(inputs, m)[k] == FlattenTo(inputs, n)[k]
  {
    if n < m {
      FlattenGrows(inputs, n, m - 1, k);
    }
  }

  ghost predicate AllHavePools(inputs: seq<ClusterPools>) {
    forall i :: 0 <= i < |inputs| ==> HasPools(inputs[i])
  }

  /** What a refusal says is true of the manifest. */
  ghost predicate Justified(error: ResolveError, inputs: seq<ClusterPools>) {
    match error
    case NoDefaultPool(cluster) =>
      exists i :: 0 <= i < |inputs| && inputs[i].cluster == cluster && !HasPools(inputs[i])
    case Collision(name, first, second, _) =>
      exists i :: 0 <= i < |inputs| && inputs[i].cluster == second && CollidesAt(inputs, i, name, first)
  }

  /** Cluster `i` exports the name, and so does `first`, no later. */
  ghost predicate CollidesAt(inputs: seq<ClusterPools>, i: nat, name: string, first: string)
    requires i < |inputs|
  {
    && Exports(Exported(inputs[i], i), name, inputs[i].cluster)
    && Exports(FlattenTo(inputs, i + 1), name, first)
  }

  ghost predicate Exports(pools: seq<ResolvedPool>, name: string, cluster: string) {
    exists k :: 0 <= k < |pools| && pools[k].name == name && pools[k].cluster == cluster
  }

  ghost predicate Claims(claimed: map<string, (string, bool)>, pools: seq<ResolvedPool>) {
    && (forall n :: n in claimed ==> Exports(pools, n, claimed[n].0))
    && (forall i :: 0 <= i < |pools| ==> pools[i].name in claimed)
  }

  lemma ClaimAlso(claimed: map<string, (string, bool)>, pools: seq<ResolvedPool>, pool: ResolvedPool, defaulted: bool)
    requires Claims(claimed, pools) && DistinctPools(pools) && pool.name !in claimed
    ensures Claims(claimed[pool.name := (pool.cluster, defaulted)], pools + [pool])
    ensures DistinctPools(pools + [pool])
  {
    var claimed', pools' := claimed[pool.name := (pool.cluster, defaulted)], pools + [pool];
    forall n | n in claimed' ensures Exports(pools', n, claimed'[n].0) {
      if n == pool.name {
        assert pools'[|pools|] == pool;
      } else {
        var i :| 0 <= i < |pools| && pools[i].name == n && pools[i].cluster == claimed[n].0;
        assert pools'[i] == pools[i];
      }
    }
  }

  lemma NothingClaimed()
    ensures Claims(map[], []) && DistinctPools([])
  {
  }

  lemma ClaimedIsExported(claimed: map<string, (string, bool)>, pools: seq<ResolvedPool>, name: string)
    requires Claims(claimed, pools) && name in claimed
    ensures Exports(pools, name, claimed[name].0)
  {
  }

  /** A name found among those claimed is exported a second time, so no resolution exists. */
  lemma CollisionIsReal(inputs: seq<ClusterPools>, index: nat, k: nat, first: string)
    requires index < |inputs| && k < |Exported(inputs[index], index)|
    requires var pools := Exported(inputs[index], index);
             Exports(FlattenTo(inputs, index) + pools[..k], pools[k].name, first)
    ensures CollidesAt(inputs, index, Exported(inputs[index], index)[k].name, first)
    ensures !DistinctPools(Flatten(inputs))
  {
    hide Exported, DistinctPools;
    var earlier, pools := FlattenTo(inputs, index), Exported(inputs[index], index);
    var upTo := FlattenTo(inputs, index + 1);
    var i :| 0 <= i < |earlier| + k && (earlier + pools[..k])[i].name == pools[k].name
             && (earlier + pools[..k])[i].cluster == first;
    var j := |earlier| + k;
    ExportedIsItsOwn(inputs[index], index, k);
    assert upTo[i] == (earlier + pools[..k])[i] && upTo[j] == pools[k];
    RepeatsLater(inputs, index + 1, i, j);
  }

  lemma RepeatsLater(inputs: seq<ClusterPools>, n: nat, i: nat, j: nat)
    requires n <= |inputs| && i < j < |FlattenTo(inputs, n)|
    requires FlattenTo(inputs, n)[i].name == FlattenTo(inputs, n)[j].name
    ensures !DistinctPools(Flatten(inputs))
  {
    FlattenGrows(inputs, n, |inputs|, i);
    FlattenGrows(inputs, n, |inputs|, j);
  }

  /**
    The pools that the clusters of a manifest add up to, or an error. It succeeds
    just when every defaulted cluster has a database and all names differ, and
    a collision names two clusters that really export that name.
  */
  method ResolvePools(inputs: seq<ClusterPools>) returns (r: Result<seq<ResolvedPool>, ResolveError>)
    ensures r.Ok? <==> AllHavePools(inputs) && DistinctPools(Flatten(inputs))
    ensures r.Ok? ==> r.value == Flatten(inputs)
    ensures r.Err? ==> Justified(r.error, inputs)
  {
    hide Exported, DistinctPools, Claims, CollidesAt;
    NothingClaimed();
    var out: seq<ResolvedPool> := [];
    var claimed: map<string, (string, bool)> := map[];
    var index := 0;
    while index < |inputs|
      invariant 0 <= index <= |inputs|
      invariant forall i :: 0 <= i < index ==> HasPools(inputs[i])
      invariant out == FlattenTo(inputs, index) && DistinctPools(out) && Claims(claimed, out)
    {
      var input := inputs[index];
      var defaulted := input.declared == [];
      if defaulted && input.defaultDatabase.None? {
        return Err(NoDefaultPool(input.cluster));
      }
      var pools := Exported(input, index);
      var k := 0;
      while k < |pools|
        invariant 0 <= k <= |pools|
        invariant out == FlattenTo(inputs, index) + pools[..k] && DistinctPools(out) && Claims(claimed, out)
      {
        var pool := pools[k];
        assert pools[..k + 1] == pools[..k] + [pool];
        ExportedIsItsOwn(input, index, k);
        if pool.name in claimed {
          var (other, otherDefaulted) := claimed[pool.name];
          ClaimedIsExported(claimed, out, pool.name);
          CollisionIsReal(inputs, index, k, other);
          return Err(Collision(pool.name, other, input.cluster, defaulted && otherDefaulted));
        }
        ClaimAlso(claimed, out, pool, defaulted);
        claimed := claimed[pool.name := (input.cluster, defaulted)];
        out := out + [pool];
        k := k + 1;
      }
      assert pools[..k] == pools;
      index := index + 1;
    }
    return Ok(out);
  }

  // ---- the lookup secrets ------------------------------------------

  datatype SecretMount = SecretMount(secret: string, index: nat)

  function LookupSecret(cluster: string): string {
    "pgpod-" + cluster + "-pooler"
  }

  ghost predicate Mounted(mounts: seq<SecretMount>, index: nat) {
    exists i :: 0 <= i < |mounts| && mounts[i].index == index
  }

  /** Every index some pool carries is mounted once, with the secret of a cluster that carries it. */
  ghost predicate MountsFor(pools: seq<PoolTarget>, mounts: seq<SecretMount>) {
    && (forall i, j :: 0 <= i < j < |mounts| ==> mounts[i].index != mounts[j].index)
    && (forall m :: m in mounts ==>
          exists k :: && 0 <= k < |pools|
                      && m == SecretMount(LookupSecret(pools[k].cluster), pools[k].lookupSecretIndex))
    && (forall k :: 0 <= k < |pools| ==> Mounted(mounts, pools[k].lookupSecretIndex))
  }

  /** Mount one lookup credential per index, taken from the first pool that carries the index. */
  method LookupMounts(pools: seq<PoolTarget>) returns (mounts: seq<SecretMount>)
    ensures MountsFor(pools, mounts)
  {
    mounts := [];
    var mounted: set<nat> := {};
    for n := 0 to |pools|
      invariant forall i :: 0 <= i < |mounts| ==> mounts[i].index in mounted
      invariant forall x :: x in mounted ==> Mounted(mounts, x)
      invariant forall i, j :: 0 <= i < j < |mounts| ==> mounts[i].index != mounts[j].index
      invariant forall m :: m in mounts ==>
                  exists k :: && 0 <= k < n
                              && m == SecretMount(LookupSecret(pools[k].cluster), pools[k].lookupSecretIndex)
      invariant forall k :: 0 <= k < n ==> pools[k].lookupSecretIndex in mounted
    {
      var target := pools[n];
      if target.lookupSecretIndex !in mounted {
        mounted := mounted + {target.lookupSecretIndex};
        ghost var was := mounts;
        mounts := mounts + [SecretMount(LookupSecret(target.cluster), target.lookupSecretIndex)];
        assert mounts[|was|].index == target.lookupSecretIndex;
        assert forall i :: 0 <= i < |was| ==> mounts[i] == was[i];
      }
    }
  }

  function Target(pool: ResolvedPool): PoolTarget {
    PoolTarget(pool.name, pool.cluster, "pgpod-" + pool.cluster + "-1", pool.database, pool.clusterIndex)
  }

  function Targets(pools: seq<ResolvedPool>): (targets: seq<PoolTarget>)
    ensures |targets| == |pools|
    ensures forall i :: 0 <= i < |pools| ==> targets[i] == Target(pools[i])
  {
    seq(|pools|, i requires 0 <= i < |pools| => Target(pools[i]))
  }

  lemma {:induction false} FlattenKeepsIndexes(inputs: seq<ClusterPools>, n: nat, k: nat)
    requires n <= |inputs| && k < |FlattenTo(inputs, n)|
    ensures FlattenTo(inputs, n)[k].clusterIndex < n
    ensures inputs[FlattenTo(inputs, n)[k].clusterIndex].cluster == FlattenTo(inputs, n)[k].cluster
  {
    if k < |FlattenTo(inputs, n - 1)| {
      FlattenKeepsIndexes(inputs, n - 1, k);
    } else {
      assert FlattenTo(inputs, n)[k] in Exported(inputs[n - 1], n - 1);
    }
  }

  lemma LookupSecretIsInjective(a: string, b: string)
    requires LookupSecret(a) == LookupSecret(b)
    ensures a == b
  {
    assert LookupSecret(a)[6..|LookupSecret(a)| - 7] == a;
    assert LookupSecret(b)[6..|LookupSecret(b)| - 7] == b;
  }

  /**
    End to end, for a manifest that names no cluster twice: each cluster's secret
    is mounted at exactly one index, and that is the index all its pools carry.
  */
  lemma OneSecretPerCluster(inputs: seq<ClusterPools>, mounts: seq<SecretMount>, k: nat)
    requires forall i, j :: 0 <= i < j < |inputs| ==> inputs[i].cluster != inputs[j].cluster
    requires MountsFor(Targets(Flatten(inputs)), mounts)
    requires k < |Flatten(inputs)|
    ensures var pool := Flatten(inputs)[k];
            exists i :: && 0 <= i < |mounts| && mounts[i] == SecretMount(LookupSecret(pool.cluster), pool.clusterIndex)
                        && forall j :: 0 <= j < |mounts| && mounts[j].secret == mounts[i].secret ==> j == i
  {
    var pools := Flatten(inputs);
    var targets := Targets(pools);
    assert targets[k] == Target(pools[k]);
    assert Mounted(mounts, targets[k].lookupSecretIndex);
    var i :| 0 <= i < |mounts| && mounts[i].index == pools[k].clusterIndex;
    FlattenKeepsIndexes(inputs, |inputs|, k);
    forall j | 0 <= j < |mounts|
      ensures j == i ==> mounts[j].secret == LookupSecret(pools[k].cluster)
      ensures mounts[j].secret == LookupSecret(pools[k].cluster) ==> j == i
    {
      assert mounts[j] in mounts;
      var n :| 0 <= n < |targets|
            && mounts[j] == SecretMount(LookupSecret(targets[n].cluster), targets[n].lookupSecretIndex);
      FlattenKeepsIndexes(inputs, |inputs|, n);
      assert targets[n] == Target(pools[n]);
      if mounts[j].secret == LookupSecret(pools[k].cluster) {
        LookupSecretIsInjective(targets[n].cluster, pools[k].cluster);
        assert mounts[j].index == mounts[i].index;
      }
    }
  }
}
