/** The operator's byte ranges as scatter ranges. */
module ShardScatter {
  import opened Text
  import opened DriverState
  import opened Shards
  import opened Plugin
  import opened Propagation
  import opened PropagationTheorems
  import Q = Requests

  /** Assignment i carries the even split's range i. */
  predicate FollowsSplit(a: seq<Assignment>, total: nat) {
    |a| > 0 && forall i :: 0 <= i < |a| ==>
      a[i].offset == EvenOffset(total, |a|, i) && a[i].length == EvenSize(total, |a|, i)
  }

  lemma {:induction false} SplitTiles(a: seq<Assignment>, total: nat, k: nat)
    requires FollowsSplit(a, total) && k <= |a|
    ensures EvenOffset(total, |a|, k) >= 0 && Q.Tiles(a, k, EvenOffset(total, |a|, k))
  {
    if k > 0 {
      SplitTiles(a, total, k - 1);
    }
  }

  /** The operator's even split tiles the whole buffer, so a scatter of it that delivers, its sizes being even,
      arrives as pieces that concatenate to the source. */
  lemma EvenSplitScatters(nodes: Cluster, source: string, base: string, r: Request, ncclId: string,
                          wires: seq<seq<string>>, wreck: Wreck, data: seq<seq<Byte>>, total: nat)
    requires AllSound(nodes) && Q.IsScatter(r) && Q.IsBase(base, r.bufferId) && Free('\n', r.bufferId)
    requires Q.ScatterArrives(base, r, ncclId, wires) && WiredFor(r, wires)
    requires CallFor(nodes, source, r, ncclId, wires, wreck).result == Delivered
    requires Q.Pieces(CallFor(nodes, source, r, ncclId, wires, wreck).nodes, base, r, data)
    requires FollowsSplit(r.assignments, total)
    requires forall i :: 0 <= i < |r.assignments| ==> r.assignments[i].length % 2 == 0
    ensures Q.At(nodes, source, r.bufferId) && total <= |Bytes(nodes[source], r.bufferId)|
    ensures Q.Concat(data, |data|) == Bytes(nodes[source], r.bufferId)[..total]
  {
    Q.ScatterDeliversIff(nodes, source, base, r, ncclId, wires, wreck);
    SplitTiles(r.assignments, total, |r.assignments|);
    EvenSplitConserves(total, |r.assignments|);
    var after := CallFor(nodes, source, r, ncclId, wires, wreck).nodes;
    hide CallFor, Q.ScatteredBytes, Q.ScatteredRanges, Q.ScatterTells, Q.InsideUpTo, Q.Pieces, Q.ScatterArrives;
    Q.TilesConcatenate(nodes, source, base, r, after, data, total);
  }

  /** Scattering the even split into shard buffers that the plugin staged can deliver shard 0 only, or shards so small
      that they end within one granule of the whole buffer, or have a share of 0. */
  lemma OnlyShardZeroFits(nodes: Cluster, source: string, base: string, r: Request, total: nat, i: nat)
    requires AllSound(nodes) && Q.ScatterStarts(nodes, source, base, r)
    requires Q.InsideUpTo(nodes, source, base, r, |r.assignments|)
    requires FollowsSplit(r.assignments, total) && i < |r.assignments| && OnTheWire(total, |r.assignments|)
    requires Q.At(nodes, r.assignments[i].node, Q.AssignedId(base, r, r.assignments[i]))
    requires Q.SizeAt(nodes, r.assignments[i].node, Q.AssignedId(base, r, r.assignments[i]))
          == DriverSize(total, |r.assignments|)
    ensures || i == 0 || EvenEnd(total, |r.assignments|, i) <= nodes[r.assignments[i].node].gran
            || total < |r.assignments|
  {
    var s, id := nodes[r.assignments[i].node], Q.AssignedId(base, r, r.assignments[i]);
    assert Backed(s, s.table[id]);
    ScatterFitsShardBufferIff(total, |r.assignments|, i, s.gran);
  }
}
