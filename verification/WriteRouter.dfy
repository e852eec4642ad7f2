/** partition_map and node_map behind their caches, and the router that reads through them. */
module WriteRouter {
  import opened MetadataCache

  const MAX_SECONDARIES: nat := 32

  datatype NodeStatus = Active | Down | Syncing

  datatype PartitionRow = PartitionRow(primary: int, secondaries: seq<int>)

  datatype NodeRow = NodeRow(hostname: string, port: int, status: NodeStatus)

  datatype RouteStatus = RouteLocal | RouteRemote | RouteNotFound | RouteNodeDown

  // The decision procedure as documented, applied to the tables.
  function Documented(partitions: map<nat, PartitionRow>, nodes: map<int, NodeRow>, local: int, pid: nat): RouteStatus {
    if pid !in partitions then RouteNotFound
    else
      var p := partitions[pid].primary;
      if p in nodes && nodes[p].status.Down? then RouteNodeDown
      else if p == local then RouteLocal
      else RouteRemote
  }

  // What GetPartitionPrimary stands for: -1 when the partition is unknown.
  function PrimaryOf(partitions: map<nat, PartitionRow>, pid: nat): int {
    if pid in partitions then partitions[pid].primary else -1
  }

  // LoadPartitionFromTable keeps at most 32 secondaries.
  function Loaded(row: PartitionRow): PartitionRow {
    row.(secondaries := if |row.secondaries| > MAX_SECONDARIES then row.secondaries[..MAX_SECONDARIES] else row.secondaries)
  }

  function LoadedTable(partitions: map<nat, PartitionRow>): map<nat, PartitionRow> {
    map k | k in partitions :: Loaded(partitions[k])
  }

  /** Where the router and its documentation part: they agree on a partition if and only if
      its primary node id is not negative (or it is unknown). */
  lemma RoutesAsDocumentedIff(partitions: map<nat, PartitionRow>, nodes: map<int, NodeRow>, local: int, pid: nat)
    ensures Routed(partitions, nodes, local, pid) == Documented(partitions, nodes, local, pid)
       <==> (pid in partitions ==> partitions[pid].primary >= 0)
  {
  }

  // RouteWriteRequest on the tables, without caches.
  function Routed(partitions: map<nat, PartitionRow>, nodes: map<int, NodeRow>, local: int, pid: nat): RouteStatus {
    var p := PrimaryOf(partitions, pid);
    if p < 0 then RouteNotFound
    else if p in nodes && nodes[p].status.Down? then RouteNodeDown
    else if local >= 0 && p == local then RouteLocal
    else RouteRemote
  }

  class Metadata {
    // partdist.partition_map and partdist.node_map
    var partitions: map<nat, PartitionRow>
    var nodes: map<int, NodeRow>
    // shared memory; absent when the library is not preloaded
    const shared: bool
    var generation: nat
    var partitionHash: map<nat, Entry<PartitionRow>>
    var nodeHash: map<int, Entry<NodeRow>>

    ghost function PartitionCache(): Cache<nat, PartitionRow>
      reads this
    {
      Cache(LoadedTable(partitions), generation, partitionHash, map[])
    }

    ghost function NodeCache(): Cache<int, NodeRow>
      reads this
    {
      Cache(nodes, generation, nodeHash, map[])
    }

    ghost predicate Valid()
      reads this
    {
      Coherent(PartitionCache()) && Coherent(NodeCache())
    }

    constructor (partitions: map<nat, PartitionRow>, nodes: map<int, NodeRow>, shared: bool)
      ensures Valid() && this.partitions == partitions && this.nodes == nodes
    {
      this.partitions := partitions;
      this.nodes := nodes;
      this.shared := shared;
      generation := 0;
      partitionHash := map[];
      nodeHash := map[];
    }

    // A metadata write and its invalidation.
    method ChangeTables(partitions: map<nat, PartitionRow>, nodes: map<int, NodeRow>)
      requires Valid()
      modifies this
      ensures Valid() && this.partitions == partitions && this.nodes == nodes
    {
      this.partitions := partitions;
      this.nodes := nodes;
      InvalidatePartdistCache();
    }

    method InvalidatePartdistCache()
      requires Stamped(partitionHash, generation) && Stamped(nodeHash, generation)
      modifies this`generation
      ensures Valid() && generation == old(generation) + 1
    {
      generation := generation + 1;
    }

    method GetPartitionPrimary(pid: nat) returns (primary: int)
      requires Valid()
      modifies this`partitionHash
      ensures Valid() && primary == PrimaryOf(partitions, pid)
      ensures primary == if pid in partitions then partitions[pid].primary else -1
      ensures shared && primary >= 0 ==> pid in partitionHash && partitionHash[pid] == Entry(Loaded(partitions[pid]), generation)
    {
      if shared && pid in partitionHash && partitionHash[pid].version == generation {
        assert Fresh(PartitionCache(), pid);
        return partitionHash[pid].row.primary;
      }
      if pid !in partitions {
        return -1;
      }
      var row := Loaded(partitions[pid]);
      primary := row.primary;
      if shared && primary >= 0 {
        StoreCoherent(PartitionCache(), pid, row);
        partitionHash := partitionHash[pid := Entry(row, generation)];
      }
    }

    // The secondaries come from a second read of the cache.
    method GetPartitionEntry(pid: nat) returns (entry: Option<PartitionRow>)
      requires Valid()
      modifies this`partitionHash
      ensures Valid()
      ensures entry.Some? <==> pid in partitions && partitions[pid].primary >= 0
      ensures entry.Some? && shared ==>
                var row, e := partitions[pid], entry.value;
                && e.primary == row.primary
                && |e.secondaries| == (if |row.secondaries| < 32 then |row.secondaries| else 32)
                && forall i :: 0 <= i < |e.secondaries| ==> e.secondaries[i] == row.secondaries[i]
      ensures entry.Some? && !shared ==> entry.value == PartitionRow(partitions[pid].primary, [])
    {
      var primary := GetPartitionPrimary(pid);
      if primary < 0 {
        return None;
      }
      if shared {
        return if pid in partitionHash then Some(partitionHash[pid].row) else None;
      }
      return Some(PartitionRow(primary, []));
    }

    method GetNodeInfo(id: int) returns (node: Option<NodeRow>)
      requires Valid()
      modifies this`nodeHash
      ensures Valid() && node == Lookup(nodes, id)
    {
      if shared && id in nodeHash && nodeHash[id].version == generation {
        assert Fresh(NodeCache(), id);
        return Some(nodeHash[id].row);
      }
      if id !in nodes {
        return None;
      }
      if shared {
        StoreCoherent(NodeCache(), id, nodes[id]);
        nodeHash := nodeHash[id := Entry(nodes[id], generation)];
      }
      return Some(nodes[id]);
    }

    /** Cached routing refines uncached routing: after any history of lookups, table
        changes and invalidations the answer is the decision procedure on the tables. */
    method RouteWriteRequest(pid: nat, local: int) returns (status: RouteStatus)
      requires Valid()
      modifies this`partitionHash, this`nodeHash
      ensures Valid()
      ensures status == Routed(partitions, nodes, local, pid)
      ensures pid !in partitions || partitions[pid].primary < 0 ==> status.RouteNotFound?
      ensures pid in partitions && partitions[pid].primary >= 0 ==>
                var p := partitions[pid].primary;
                status == if p in nodes && nodes[p].status == Down then RouteNodeDown
                          else if local >= 0 && p == local then RouteLocal
                          else RouteRemote
      ensures (pid in partitions ==> partitions[pid].primary >= 0) ==>
                status == Documented(partitions, nodes, local, pid)
    {
      RoutesAsDocumentedIff(partitions, nodes, local, pid);
      var primary := GetPartitionPrimary(pid);
      if primary < 0 {
        return RouteNotFound;
      }
      var node := GetNodeInfo(primary);
      if node.Some? && node.value.status.Down? {
        return RouteNodeDown;
      }
      if local >= 0 && primary == local {
        return RouteLocal;
      }
      return RouteRemote;
    }
  }

  // ---- a route whose two lookups are apart ----

  // RouteWriteRequest on the answers its lookups gave.
  function RouteFrom(partition: Option<PartitionRow>, node: Option<NodeRow>, local: int): RouteStatus {
    if partition.None? || partition.value.primary < 0 then RouteNotFound
    else if node.Some? && node.value.status.Down? then RouteNodeDown
    else if local >= 0 && partition.value.primary == local then RouteLocal
    else RouteRemote
  }

  function IsDown(nodes: map<int, NodeRow>, id: int): bool {
    id in nodes && nodes[id].status.Down?
  }

  /** With any lookups, changes and bumps of other backends before, between and during its
      two lookups -- but, as everywhere here, no change to a row between its table read and
      its refill -- a route is the decision procedure on the partition table of the moment
      the first lookup was answered and the node table of the moment the second was. */
  lemma RouteAcrossHistories(
      partitions: map<nat, PartitionRow>, partitionGen: nat, ps: seq<Step<nat, PartitionRow>>, first: Step<nat, PartitionRow>,
      nodes: map<int, NodeRow>, nodeGen: nat, ns: seq<Step<int, NodeRow>>, second: Step<int, NodeRow>,
      b: nat, pid: nat, local: int)
    requires var c := Cache(LoadedTable(partitions), partitionGen, map[], map[]);
             && Runs(c, ps) && Enabled(Run(c, ps), first)
             && (first == Fetch(b) || first == Refill(b) || (first.Probe? && first.b == b))
             && var d := Next(Run(c, ps), first);
                b in d.calls && d.calls[b].Answered? && d.calls[b].key == pid
    requires var c := Cache(nodes, nodeGen, map[], map[]);
             && Runs(c, ns) && Enabled(Run(c, ns), second)
             && (second == Fetch(b) || second == Refill(b) || (second.Probe? && second.b == b))
             && var d := Next(Run(c, ns), second); b in d.calls && d.calls[b].Answered?
    ensures var p := Run(Cache(LoadedTable(partitions), partitionGen, map[], map[]), ps);
            var n := Run(Cache(nodes, nodeGen, map[], map[]), ns);
            var row := Next(p, first).calls[b].answer;
            var node := Next(n, second).calls[b];
            row.Some? && row.value.primary >= 0 ==> node.key == row.value.primary ==>
              RouteFrom(row, node.answer, local) == Routed(p.table, n.table, local, pid)
    ensures var p := Run(Cache(LoadedTable(partitions), partitionGen, map[], map[]), ps);
            var row := Next(p, first).calls[b].answer;
            row.None? || row.value.primary < 0 ==>
              forall node, table :: RouteFrom(row, node, local) == Routed(p.table, table, local, pid)
  {
    AnswersAreCurrent(LoadedTable(partitions), partitionGen, ps, first, b);
    AnswersAreCurrent(nodes, nodeGen, ns, second, b);
  }

  // Two primaries route alike: both unknown, or known nodes that are both down, or both up
  // and both this node or neither.
  predicate RouteAlike(nodes: map<int, NodeRow>, local: int, p: int, q: int) {
    if p < 0 || q < 0 then p < 0 && q < 0
    else
      && IsDown(nodes, p) == IsDown(nodes, q)
      && (IsDown(nodes, p) || ((local >= 0 && p == local) <==> (local >= 0 && q == local)))
  }

  /** Such a route is the answer of its first moment if and only if the primary was not
      taken down or brought up in between, and that of its second moment if and only if the
      partition's old and new primary route alike. */
  lemma OneMomentIff(before: map<nat, PartitionRow>, nodesBefore: map<int, NodeRow>,
                     after: map<nat, PartitionRow>, nodesAfter: map<int, NodeRow>, local: int, pid: nat)
    ensures Routed(before, nodesAfter, local, pid) == Routed(before, nodesBefore, local, pid)
       <==> PrimaryOf(before, pid) < 0
            || IsDown(nodesBefore, PrimaryOf(before, pid)) == IsDown(nodesAfter, PrimaryOf(before, pid))
    ensures Routed(before, nodesAfter, local, pid) == Routed(after, nodesAfter, local, pid)
       <==> RouteAlike(nodesAfter, local, PrimaryOf(before, pid), PrimaryOf(after, pid))
    ensures PrimaryOf(before, pid) == PrimaryOf(after, pid) ==>
              Routed(before, nodesAfter, local, pid) == Routed(after, nodesAfter, local, pid)
  {
  }

  /** And it can be neither's: a partition moves from a node that is brought up to one that
      is taken down, between the two lookups. */
  lemma NeitherMoment()
    ensures var up := NodeRow("a", 1, Active);
            var down := NodeRow("a", 1, Down);
            var p1, n1 := map[7 := PartitionRow(1, [])], map[1 := down, 2 := up];
            var p2, n2 := map[7 := PartitionRow(2, [])], map[1 := up, 2 := down];
            && Routed(p1, n2, 1, 7) == RouteLocal
            && Routed(p1, n1, 1, 7) == RouteNodeDown && Routed(p2, n2, 1, 7) == RouteNodeDown
  {
    var p1, p2 := map[7 := PartitionRow(1, [])], map[7 := PartitionRow(2, [])];
    assert PrimaryOf(p1, 7) == 1 && PrimaryOf(p2, 7) == 2;
  }

  ghost predicate Stamped<K, V>(entries: map<K, Entry<V>>, generation: nat) {
    forall k :: k in entries ==> entries[k].version <= generation
  }

  lemma StoreCoherent<K(!new), V>(c: Cache<K, V>, key: K, row: V)
    requires Coherent(c) && key in c.table && c.table[key] == row
    ensures Coherent(Stored(c, key, row))
  {
  }
}
