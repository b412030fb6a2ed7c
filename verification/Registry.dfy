/**
  The registry's tables, with the constraints its schema puts on them, and the
  calls that change them. A manifest is compared as its stored encoding.
*/
module Registry {
  import opened Wrappers
  import opened Sorting

  datatype ClusterRow = ClusterRow(manifest: string, generation: nat, phase: string)

  datatype InstanceRow = InstanceRow(containerName: string, hostPort: nat, phase: string)

  datatype PoolerRow = PoolerRow(manifest: string, generation: nat, containerName: string, hostPort: nat, phase: string)

  /** One exported pool as the manifest gives it. */
  datatype Pool = Pool(cluster: string, database: string, name: string)

  datatype PoolRow = PoolRow(cluster: string, database: string)

  datatype RegistryError = PoolerInUse(cluster: string, pooler: string) | ConstraintFailed

  type InstanceKey = (string, nat)
  type PoolKey = (string, string)

  /** How often a manifest differed from the one put before it. */
  function Changes(puts: seq<string>): nat {
    if |puts| < 2 then 0
    else Changes(puts[..|puts| - 1]) + if puts[|puts| - 1] == puts[|puts| - 2] then 0 else 1
  }

  predicate Changed(puts: seq<string>, i: nat)
    requires i + 1 < |puts|
  {
    puts[i] != puts[i + 1]
  }

  /** `Changes` counts the places where neighbours differ. */
  lemma {:induction false} ChangesCountsNeighbours(puts: seq<string>)
    ensures Changes(puts) == |set i: nat | i + 1 < |puts| && Changed(puts, i)|
  {
    var all := set i: nat | i + 1 < |puts| && Changed(puts, i);
    if |puts| < 2 {
      assert all == {};
    } else {
      var last := |puts| - 2;
      var shorter := puts[..last + 1];
      var some := set i: nat | i + 1 < |shorter| && Changed(shorter, i);
      ChangesCountsNeighbours(shorter);
      assert forall i: nat :: i + 1 < |shorter| ==> Changed(shorter, i) == Changed(puts, i);
      assert all == if Changed(puts, last) then some + {last} else some;
      assert last !in some;
    }
  }

  /** The last manifest put is the stored one, and the generation is 1 plus the changes so far. */
  ghost predicate Counted(puts: seq<string>, manifest: string, generation: nat) {
    puts != [] && puts[|puts| - 1] == manifest && generation == 1 + Changes(puts)
  }

  lemma CountedOneMore(puts: seq<string>, manifest: string, generation: nat, next: string)
    requires Counted(puts, manifest, generation)
    ensures Counted(puts + [next], next, if next == manifest then generation else generation + 1)
  {
    assert (puts + [next])[..|puts|] == puts;
  }

  lemma FirstPut(manifest: string)
    ensures Counted([] + [manifest], manifest, 1)
  {
  }

  ghost predicate ClustersCounted(puts: map<string, seq<string>>, rows: map<string, ClusterRow>) {
    puts.Keys == rows.Keys && forall c :: c in rows ==> Counted(puts[c], rows[c].manifest, rows[c].generation)
  }

  ghost predicate PoolersCounted(puts: map<string, seq<string>>, rows: map<string, PoolerRow>) {
    puts.Keys == rows.Keys && forall p :: p in rows ==> Counted(puts[p], rows[p].manifest, rows[p].generation)
  }

  /** The generation of a row that is put again, or for the first time. */
  function NextGeneration(stored: Option<(string, nat)>, manifest: string): nat {
    match stored
    case None => 1
    case Some((previous, generation)) => if previous == manifest then generation else generation + 1
  }

  function StoredCluster(rows: map<string, ClusterRow>, name: string): Option<(string, nat)> {
    if name in rows then Some((rows[name].manifest, rows[name].generation)) else None
  }

  function StoredPooler(rows: map<string, PoolerRow>, name: string): Option<(string, nat)> {
    if name in rows then Some((rows[name].manifest, rows[name].generation)) else None
  }

  function PutsOf(puts: map<string, seq<string>>, name: string): seq<string> {
    if name in puts then puts[name] else []
  }

  lemma ClusterPutCounts(puts: map<string, seq<string>>, rows: map<string, ClusterRow>, name: string, row: ClusterRow)
    requires ClustersCounted(puts, rows) && row.generation == NextGeneration(StoredCluster(rows, name), row.manifest)
    ensures ClustersCounted(puts[name := PutsOf(puts, name) + [row.manifest]], rows[name := row])
  {
    hide Counted;
    FirstPut(row.manifest);
    if name in rows {
      CountedOneMore(puts[name], rows[name].manifest, rows[name].generation, row.manifest);
    }
  }

  lemma PoolerPutCounts(puts: map<string, seq<string>>, rows: map<string, PoolerRow>, name: string, row: PoolerRow)
    requires PoolersCounted(puts, rows) && row.generation == NextGeneration(StoredPooler(rows, name), row.manifest)
    ensures PoolersCounted(puts[name := PutsOf(puts, name) + [row.manifest]], rows[name := row])
  {
    hide Counted;
    FirstPut(row.manifest);
    if name in rows {
      CountedOneMore(puts[name], rows[name].manifest, rows[name].generation, row.manifest);
    }
  }

  /** No row refers to a row that is not there. */
  ghost predicate References(clusters: map<string, ClusterRow>, instances: map<InstanceKey, InstanceRow>,
                             poolers: map<string, PoolerRow>, pools: map<PoolKey, PoolRow>)
  {
    && (forall k :: k in instances ==> k.0 in clusters)
    && (forall k :: k in pools ==> k.0 in poolers && pools[k].cluster in clusters)
  }

  /** No name twice. */
  predicate DistinctNames(pools: seq<Pool>) {
    forall i, j :: 0 <= i < j < |pools| ==> pools[i].name != pools[j].name
  }

  predicate KnownClusters(pools: seq<Pool>, clusters: set<string>) {
    forall i :: 0 <= i < |pools| ==> pools[i].cluster in clusters
  }

  /** The pool rows of one pooler. */
  function RowsOf(pooler: string, exported: seq<Pool>): (rows: map<PoolKey, PoolRow>)
    ensures forall k :: k in rows ==> k.0 == pooler
  {
    if exported == [] then map[]
    else
      var last := exported[|exported| - 1];
      RowsOf(pooler, exported[..|exported| - 1])[(pooler, last.name) := PoolRow(last.cluster, last.database)]
  }

  function OthersThan(pooler: string, pools: map<PoolKey, PoolRow>): (rows: map<PoolKey, PoolRow>)
    ensures forall k :: k in rows <==> k in pools && k.0 != pooler
    ensures forall k :: k in rows ==> rows[k] == pools[k]
  {
    map k | k in pools && k.0 != pooler :: pools[k]
  }

  function WithoutCluster(cluster: string, instances: map<InstanceKey, InstanceRow>): (rows: map<InstanceKey, InstanceRow>)
    ensures forall k :: k in rows <==> k in instances && k.0 != cluster
    ensures forall k :: k in rows ==> rows[k] == instances[k]
  {
    map k | k in instances && k.0 != cluster :: instances[k]
  }

  /** With distinct names there is one row for each exported pool, and no other. */
  lemma {:induction false} RowsAreExact(pooler: string, exported: seq<Pool>)
    requires DistinctNames(exported)
    ensures forall i :: 0 <= i < |exported| ==>
              && (pooler, exported[i].name) in RowsOf(pooler, exported)
              && RowsOf(pooler, exported)[(pooler, exported[i].name)] == PoolRow(exported[i].cluster, exported[i].database)
    ensures |RowsOf(pooler, exported)| == |exported|
  {
    if exported != [] {
      var front := exported[..|exported| - 1];
      RowsAreExact(pooler, front);
      assert forall i :: 0 <= i < |front| ==> exported[i] == front[i];
      NamedInRows(pooler, front, exported[|exported| - 1].name);
    }
  }

  lemma {:induction false} NamedInRows(pooler: string, exported: seq<Pool>, name: string)
    ensures (pooler, name) in RowsOf(pooler, exported) <==> exists i :: 0 <= i < |exported| && exported[i].name == name
  {
    if exported != [] {
      var front := exported[..|exported| - 1];
      NamedInRows(pooler, front, name);
      assert forall i :: 0 <= i < |front| ==> exported[i] == front[i];
    }
  }

  lemma {:induction false} RowsKnow(pooler: string, exported: seq<Pool>, clusters: set<string>)
    requires KnownClusters(exported, clusters)
    ensures forall k :: k in RowsOf(pooler, exported) ==> RowsOf(pooler, exported)[k].cluster in clusters
  {
    if exported != [] {
      RowsKnow(pooler, exported[..|exported| - 1], clusters);
    }
  }

  lemma ReferencesAfterPut(clusters: map<string, ClusterRow>, instances: map<InstanceKey, InstanceRow>,
                           poolers: map<string, PoolerRow>, pools: map<PoolKey, PoolRow>,
                           name: string, row: PoolerRow, exported: seq<Pool>)
    requires References(clusters, instances, poolers, pools) && KnownClusters(exported, clusters.Keys)
    ensures References(clusters, instances, poolers[name := row], OthersThan(name, pools) + RowsOf(name, exported))
  {
    hide RowsOf, KnownClusters;
    RowsKnow(name, exported, clusters.Keys);
  }

  /** Rows that are not the pooler's own, and one more of its own. */
  lemma OneMoreRow(others: map<PoolKey, PoolRow>, pooler: string, done: seq<Pool>, pool: Pool)
    ensures RowsOf(pooler, done + [pool]) == RowsOf(pooler, done)[(pooler, pool.name) := PoolRow(pool.cluster, pool.database)]
    ensures others + RowsOf(pooler, done + [pool])
         == (others + RowsOf(pooler, done))[(pooler, pool.name) := PoolRow(pool.cluster, pool.database)]
  {
    assert (done + [pool])[..|done|] == done;
  }

  lemma NoRows(pooler: string)
    ensures RowsOf(pooler, []) == map[] && DistinctNames([])
  {
  }

  lemma NamesOneMore(done: seq<Pool>, pool: Pool)
    requires DistinctNames(done)
    ensures DistinctNames(done + [pool]) <==> forall i :: 0 <= i < |done| ==> done[i].name != pool.name
  {
    var more := done + [pool];
    forall i | 0 <= i < |done| ensures more[i] == done[i] && more[|done|] == pool {
    }
  }

  lemma NamesOfPart(pools: seq<Pool>, n: nat)
    requires n <= |pools| && !DistinctNames(pools[..n])
    ensures !DistinctNames(pools)
  {
    var i, j :| 0 <= i < j < n && pools[..n][i].name == pools[..n][j].name;
    assert pools[i].name == pools[j].name;
  }

  // ---- names in order ----------------------------------------------

  predicate StrictlyOrdered(names: seq<string>) {
    forall i, j :: 0 <= i < j < |names| ==> Before(names[i], names[j])
  }

  lemma {:induction false} InsertIntoOrder(p: string, names: seq<string>)
    requires p !in names && StrictlyOrdered(names)
    ensures StrictlyOrdered(Insert(NotAfter, p, names))
    ensures forall x :: x in Insert(NotAfter, p, names) <==> x == p || x in names
  {
    hide Before;
    if names != [] {
      var first, rest := names[0], names[1..];
      assert names == [first] + rest;
      BeforeIsTotal(p, first);
      if NotAfter(p, first) {
        forall x | x in rest ensures Before(p, x) {
          BeforeIsTransitive(p, first, x);
        }
      } else {
        InsertIntoOrder(p, rest);
        var more := Insert(NotAfter, p, rest);
        assert forall i :: 0 <= i < |more| ==> more[i] == p || more[i] in rest;
      }
    }
  }

  datatype Call =
    | PutCluster(name: string, manifest: string, phase: string)
    | SetClusterPhase(name: string, phase: string)
    | DeleteCluster(name: string)
    | PutInstance(cluster: string, ordinal: nat, row: InstanceRow)
    | PutPooler(name: string, manifest: string, containerName: string, hostPort: nat, phase: string, pools: seq<Pool>)
    | DeletePooler(name: string)

  class Registry {
    var clusters: map<string, ClusterRow>
    var instances: map<InstanceKey, InstanceRow>
    var poolers: map<string, PoolerRow>
    var pools: map<PoolKey, PoolRow>
    /** Every manifest put for a cluster since its row was inserted, and likewise for a pooler. */
    ghost var clusterPuts: map<string, seq<string>>
    ghost var poolerPuts: map<string, seq<string>>

    constructor ()
      ensures Valid() && clusters == map[] && instances == map[] && poolers == map[] && pools == map[]
    {
      clusters, instances, poolers, pools := map[], map[], map[], map[];
      clusterPuts, poolerPuts := map[], map[];
    }

    ghost predicate Valid()
      reads this
    {
      && References(clusters, instances, poolers, pools)
      && ClustersCounted(clusterPuts, clusters) && PoolersCounted(poolerPuts, poolers)
    }

    method PutCluster(name: string, manifest: string, phase: string) returns (generation: nat)
      requires Valid()
      modifies `clusters, `clusterPuts
      ensures Valid()
      ensures generation == NextGeneration(StoredCluster(old(clusters), name), manifest)
      ensures clusters == old(clusters)[name := ClusterRow(manifest, generation, phase)]
      ensures clusterPuts == old(clusterPuts)[name := PutsOf(old(clusterPuts), name) + [manifest]]
    {
      hide PoolersCounted, ClustersCounted;
      generation := 1;
      if name in clusters {
        var stored := clusters[name];
        generation := if stored.manifest == manifest then stored.generation else stored.generation + 1;
      }
      var row := ClusterRow(manifest, generation, phase);
      ClusterPutCounts(clusterPuts, clusters, name, row);
      clusters := clusters[name := row];
      clusterPuts := clusterPuts[name := PutsOf(clusterPuts, name) + [manifest]];
    }

    /** A name that has no row is not an error. */
    method SetClusterPhase(name: string, phase: string)
      requires Valid()
      modifies `clusters
      ensures Valid()
      ensures clusters == if name in old(clusters) then old(clusters)[name := old(clusters)[name].(phase := phase)]
                          else old(clusters)
    {
      hide PoolersCounted, Counted;
      if name in clusters {
        clusters := clusters[name := clusters[name].(phase := phase)];
      }
    }

    ghost predicate Fronts(pooler: string, cluster: string)
      reads this
    {
      exists name :: (pooler, name) in pools && pools[(pooler, name)].cluster == cluster
    }

    /** Refused, naming a pooler that really fronts the cluster, as long as there is one. */
    method DeleteCluster(name: string) returns (r: Result<(), RegistryError>)
      requires Valid()
      modifies `clusters, `instances, `clusterPuts
      ensures Valid()
      ensures r.Ok? <==> forall k :: k in pools ==> pools[k].cluster != name
      ensures r.Err? ==> && r.error.PoolerInUse? && r.error.cluster == name && Fronts(r.error.pooler, name)
                         && clusters == old(clusters) && instances == old(instances) && clusterPuts == old(clusterPuts)
      ensures r.Ok? ==> && clusters == old(clusters) - {name}
                        && instances == WithoutCluster(name, old(instances))
                        && clusterPuts == old(clusterPuts) - {name}
    {
      hide PoolersCounted, Counted;
      if k :| k in pools && pools[k].cluster == name {
        assert k == (k.0, k.1);
        return Err(PoolerInUse(name, k.0));
      }
      clusters := clusters - {name};
      instances := WithoutCluster(name, instances);
      clusterPuts := clusterPuts - {name};
      return Ok(());
    }

    method PutInstance(cluster: string, ordinal: nat, row: InstanceRow) returns (r: Result<(), RegistryError>)
      requires Valid()
      modifies `instances
      ensures Valid()
      ensures r.Ok? <==> cluster in clusters
      ensures instances == if r.Ok? then old(instances)[(cluster, ordinal) := row] else old(instances)
    {
      hide PoolersCounted, ClustersCounted;
      if cluster !in clusters {
        return Err(ConstraintFailed);
      }
      instances := instances[(cluster, ordinal) := row];
      return Ok(());
    }

    /** One transaction: the pooler's row and all its pools, or nothing. */
    method PutPooler(name: string, manifest: string, containerName: string, hostPort: nat, phase: string,
                     exported: seq<Pool>) returns (r: Result<nat, RegistryError>)
      requires Valid()
      modifies `poolers, `pools, `poolerPuts
      ensures Valid()
      ensures r.Ok? <==> DistinctNames(exported) && KnownClusters(exported, clusters.Keys)
      ensures r.Err? ==> poolers == old(poolers) && pools == old(pools) && poolerPuts == old(poolerPuts)
      ensures r.Ok? ==> && pools == OthersThan(name, old(pools)) + RowsOf(name, exported)
                        && poolers == old(poolers)[name := PoolerRow(manifest, r.value, containerName, hostPort, phase)]
      ensures r.Ok? ==> && r.value == NextGeneration(StoredPooler(old(poolers), name), manifest)
                        && poolerPuts == old(poolerPuts)[name := PutsOf(old(poolerPuts), name) + [manifest]]
    {
      hide ClustersCounted, PoolersCounted, References, RowsOf, OthersThan, DistinctNames, KnownClusters;
      var generation := 1;
      if name in poolers {
        var stored := poolers[name];
        generation := if stored.manifest == manifest then stored.generation else stored.generation + 1;
      }
      var row := PoolerRow(manifest, generation, containerName, hostPort, phase);
      var rows := InsertRows(name, exported);
      if rows.Err? {
        return Err(ConstraintFailed);
      }
      PoolerPutCounts(poolerPuts, poolers, name, row);
      ReferencesAfterPut(clusters, instances, poolers, pools, name, row, exported);
      poolers := poolers[name := row];
      pools := rows.value;
      poolerPuts := poolerPuts[name := PutsOf(poolerPuts, name) + [manifest]];
      return Ok(generation);
    }

    /** What the pool rows become if every insert of the transaction succeeds. */
    method InsertRows(pooler: string, exported: seq<Pool>) returns (r: Result<map<PoolKey, PoolRow>, RegistryError>)
      ensures r.Ok? <==> DistinctNames(exported) && KnownClusters(exported, clusters.Keys)
      ensures r.Ok? ==> r.value == OthersThan(pooler, pools) + RowsOf(pooler, exported)
    {
      hide RowsOf, DistinctNames;
      var others := OthersThan(pooler, pools);
      var rows := others;
      NoRows(pooler);
      assert exported[..0] == [];
      for n := 0 to |exported|
        invariant DistinctNames(exported[..n]) && KnownClusters(exported[..n], clusters.Keys)
        invariant rows == others + RowsOf(pooler, exported[..n])
      {
        var pool := exported[n];
        if pool.cluster !in clusters {
          return Err(ConstraintFailed);
        }
        var key := (pooler, pool.name);
        ghost var done := exported[..n];
        NamedInRows(pooler, done, pool.name);
        NamesOneMore(done, pool);
        assert exported[..n + 1] == done + [pool];
        if key in rows {
          NamesOfPart(exported, n + 1);
          return Err(ConstraintFailed);
        }
        OneMoreRow(others, pooler, done, pool);
        rows := rows[key := PoolRow(pool.cluster, pool.database)];
      }
      assert exported[..|exported|] == exported;
      return Ok(rows);
    }

    method DeletePooler(name: string)
      requires Valid()
      modifies `poolers, `pools, `poolerPuts
      ensures Valid()
      ensures poolers == old(poolers) - {name} && poolerPuts == old(poolerPuts) - {name}
      ensures pools == OthersThan(name, old(pools))
    {
      hide ClustersCounted, Counted;
      poolers := poolers - {name};
      pools := OthersThan(name, pools);
      poolerPuts := poolerPuts - {name};
    }

    /** The poolers in front of a cluster, each once, in order of name: none exactly when the cluster may be deleted. */
    method PoolersForCluster(name: string) returns (names: seq<string>)
      ensures forall p :: p in names <==> Fronts(p, name)
      ensures names == [] <==> forall k :: k in pools ==> pools[k].cluster != name
      ensures StrictlyOrdered(names)
    {
      var found: set<string> := set k | k in pools && pools[k].cluster == name :: k.0;
      forall p ensures p in found <==> Fronts(p, name) {
        if p in found {
          var k :| k in pools && pools[k].cluster == name && k.0 == p;
          assert k == (p, k.1);
        }
        if Fronts(p, name) {
          var n :| (p, n) in pools && pools[(p, n)].cluster == name;
          assert (p, n).0 in found;
        }
      }
      names := InOrder(found);
      forall k | k in pools && pools[k].cluster == name ensures names != [] {
        assert k.0 in found;
      }
      if names != [] {
        assert names[0] in found;
      }
    }

    method InOrder(s: set<string>) returns (names: seq<string>)
      ensures forall p :: p in names <==> p in s
      ensures StrictlyOrdered(names)
    {
      names := [];
      var left := s;
      while left != {}
        invariant left <= s
        invariant forall p :: p in s <==> p in left || p in names
        invariant forall p :: p in left ==> p !in names
        invariant StrictlyOrdered(names)
        decreases |left|
      {
        var p :| p in left;
        InsertIntoOrder(p, names);
        names := Insert(NotAfter, p, names);
        left := left - {p};
      }
    }

    /** Any sequence of calls, whether or not each succeeds, keeps every constraint and every count. */
    method Perform(calls: seq<Call>)
      requires Valid()
      modifies this
      ensures Valid()
    {
      for n := 0 to |calls|
        invariant Valid()
      {
        match calls[n] {
          case PutCluster(name, manifest, phase) => var _ := PutCluster(name, manifest, phase);
          case SetClusterPhase(name, phase) => SetClusterPhase(name, phase);
          case DeleteCluster(name) => var _ := DeleteCluster(name);
          case PutInstance(cluster, ordinal, row) => var _ := PutInstance(cluster, ordinal, row);
          case PutPooler(name, manifest, containerName, hostPort, phase, exported) =>
            var _ := PutPooler(name, manifest, containerName, hostPort, phase, exported);
          case DeletePooler(name) => DeletePooler(name);
        }
      }
    }
  }
}
