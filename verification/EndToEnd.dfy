/** A weight list, packed by the trainer, propagated, announced, and read by every rollout worker, each through
    the memory that its own GPU maps. */
module EndToEnd {
  import opened Text
  import opened Keys
  import opened DriverState
  import opened DriverInvariants
  import opened Propagation
  import opened PropagationProofs
  import opened PropagationTheorems
  import opened Packing
  import opened PackingProofs
  import opened Topology
  import A = DriverAccounts
  import R = Relocation
  import N = Notify

  const BROADCAST := 0

  /** One call of `send_weights`: the trainer's host and GPU, the engine's buffer, the list and the targets. */
  datatype Sync = Sync(trainer: string, gpu: int, id: string, bucketSize: nat, ws: Weights, targets: seq<string>)

  /** A rollout worker: its host, its GPU, and its connection to the notify socket. */
  datatype Worker = Worker(host: string, gpu: int, consumer: nat)

  /** The node has the engine's buffer, of the bucket's size. */
  predicate HasBuffer(nodes: Cluster, host: string, id: string, bucketSize: nat) {
    host in nodes && Tracked(nodes[host], id) && nodes[host].table[id].size == bucketSize
  }

  /** A successful stage of a new buffer gives the node that buffer. */
  lemma StagingGivesBuffer(s: State, req: StageRequest, answer: StageAnswer, host: string)
    requires Sound(s) && Possible(s, Stage(req, answer)) && Id(req) !in s.table && answer.allocation.Allocated?
    ensures Sound(StageNext(s, req, answer))
    ensures HasBuffer(map[host := StageNext(s, req, answer)], host, Id(req), StagedSize(req))
  {
    SoundStage(s, req, answer);
  }

  /** The process on this GPU has got its descriptor: the buffer is staged there, or a copy has been made. */
  predicate Maps(nodes: Cluster, host: string, id: string, gpu: int) {
    host in nodes && id in nodes[host].table && !NeedsCopy(nodes[host], id, gpu)
  }

  /** The entry whose memory a process on this GPU maps. */
  function Mapped(nodes: Cluster, host: string, id: string, gpu: int): string
    requires host in nodes && id in nodes[host].table
  {
    R.ServingKey(nodes[host], id, gpu)
  }

  ghost predicate AllGood(nodes: Cluster) {
    AllSound(nodes) && forall n :: n in nodes ==> Tree(nodes[n])
  }

  /** The engine is prepared on all hosts, and the targets are as `build_topology` gives them. */
  ghost predicate HostsPrepared(nodes: Cluster, trainer: string, gpu: int, id: string, bucketSize: nat,
                                targets: seq<string>) {
    && AllGood(nodes) && IsStagedId(id) && Free('\n', id)
    && HasBuffer(nodes, trainer, id, bucketSize) && Maps(nodes, trainer, id, gpu)
    && (forall i :: 0 <= i < |targets| ==> HasBuffer(nodes, targets[i], id, bucketSize))
    && trainer !in targets && (forall i, j :: 0 <= i < j < |targets| ==> targets[i] != targets[j])
  }

  /** The hosts are prepared, and the list fits. */
  ghost predicate Prepared(nodes: Cluster, y: Sync) {
    && HostsPrepared(nodes, y.trainer, y.gpu, y.id, y.bucketSize, y.targets)
    && ValidWeights(y.ws) && |Payload(y.ws, |y.ws|)| <= y.bucketSize
  }

  /** What a process maps is tracked and at least as long as the bucket. */
  lemma MappedFits(nodes: Cluster, host: string, id: string, bucketSize: nat, gpu: int)
    requires AllGood(nodes) && IsStagedId(id) && HasBuffer(nodes, host, id, bucketSize) && Maps(nodes, host, id, gpu)
    ensures Tracked(nodes[host], Mapped(nodes, host, id, gpu))
    ensures bucketSize <= |Bytes(nodes[host], Mapped(nodes, host, id, gpu))|
  {
    var s, k := nodes[host], Mapped(nodes, host, id, gpu);
    assert Sound(s) && Tree(s);
    if k != id {
      R.CopyAtKey(s, id, gpu);
    }
    assert Backed(s, s.table[k]);
    SizeFits(s, k);
  }

  // ----- Packing -----

  function TrainerKey(nodes: Cluster, y: Sync): string
    requires y.trainer in nodes && y.id in nodes[y.trainer].table
  {
    Mapped(nodes, y.trainer, y.id, y.gpu)
  }

  /** The trainer can pack. */
  ghost predicate Packable(nodes: Cluster, y: Sync) {
    && y.trainer in nodes && y.id in nodes[y.trainer].table
    && Tracked(nodes[y.trainer], TrainerKey(nodes, y))
    && |Payload(y.ws, |y.ws|)| <= |Bytes(nodes[y.trainer], TrainerKey(nodes, y))|
  }

  lemma PreparedPackable(nodes: Cluster, y: Sync)
    requires Prepared(nodes, y)
    ensures Packable(nodes, y)
  {
    MappedFits(nodes, y.trainer, y.id, y.bucketSize, y.gpu);
  }

  /** The content that packing leaves in the trainer's memory. */
  function PackedBytes(nodes: Cluster, y: Sync): seq<Byte>
    requires Packable(nodes, y)
  {
    Packed(Bytes(nodes[y.trainer], TrainerKey(nodes, y)), y.ws, |y.ws|)
  }

  /** The cluster after the engine has packed the list into the memory that the trainer maps. */
  function PackedOn(nodes: Cluster, y: Sync): Cluster
    requires Packable(nodes, y)
  {
    nodes[y.trainer := Overwritten(nodes[y.trainer], TrainerKey(nodes, y), PackedBytes(nodes, y))]
  }

  /** Packing changes the trainer's memory and nothing else. */
  lemma PackingChanges(nodes: Cluster, y: Sync, host: string, k: string)
    requires AllSound(nodes) && Packable(nodes, y) && host in nodes && Tracked(nodes[host], k)
    ensures var packed := PackedOn(nodes, y);
            && host in packed && packed[host].table == nodes[host].table && Tracked(packed[host], k)
            && Bytes(packed[host], k) == if host == y.trainer && k == TrainerKey(nodes, y) then PackedBytes(nodes, y)
                                         else Bytes(nodes[host], k)
  {
    assert Sound(nodes[host]);
  }

  lemma PackedIsSound(nodes: Cluster, y: Sync)
    requires AllSound(nodes) && Packable(nodes, y)
    ensures AllSound(PackedOn(nodes, y)) && PackedOn(nodes, y).Keys == nodes.Keys
  {
    SoundOverwrite(nodes[y.trainer], TrainerKey(nodes, y), PackedBytes(nodes, y));
  }

  // ----- Propagating -----

  function Broadcast(id: string, targets: seq<string>): Plan {
    PlanOf(Request(id, targets, BROADCAST, []))
  }

  lemma BroadcastLegs(id: string, targets: seq<string>)
    ensures var plan := Broadcast(id, targets);
            && plan.bufferId == id && !plan.scatter && |plan.legs| == |targets|
            && forall i :: 0 <= i < |targets| ==> plan.legs[i] == Leg(targets[i], id, 0, 0)
  {}

  /** A broadcast to hosts with buffers of the source's size, none of them twice and none the source, is worth
      sending. */
  lemma BroadcastDelivers(nodes: Cluster, source: string, id: string, bucketSize: nat, targets: seq<string>)
    requires HasBuffer(nodes, source, id, bucketSize)
    requires forall i :: 0 <= i < |targets| ==> HasBuffer(nodes, targets[i], id, bucketSize)
    requires source !in targets && forall i, j :: 0 <= i < j < |targets| ==> targets[i] != targets[j]
    ensures Sendworthy(nodes, source, Broadcast(id, targets))
  {
    var plan := Broadcast(id, targets);
    BroadcastLegs(id, targets);
    forall i | 0 <= i < |plan.legs|
      ensures TargetTracked(nodes, plan, i) && TargetSize(nodes, plan, i) == bucketSize
    {
      assert HasBuffer(nodes, targets[i], id, bucketSize);
    }
  }

  /** A broadcast to the source's own host, or twice to one host, gets two ranks for one GPU and is refused. */
  lemma HostTwiceRaises(nodes: Cluster, source: string, id: string, targets: seq<string>, ncclId: string,
                        wires: seq<seq<string>>, wreck: Wreck)
    requires AllSound(nodes) && Carried(Broadcast(id, targets), ncclId, wires)
    requires source in targets || exists i, j :: 0 <= i < j < |targets| && targets[i] == targets[j]
    ensures var e := Propagated(nodes, source, Broadcast(id, targets), ncclId, wires, wreck);
            e.result == Result.Raised && e.nodes == nodes
  {
    var plan := Broadcast(id, targets);
    BroadcastLegs(id, targets);
    DeliversExactly(nodes, source, plan, ncclId, wires, wreck);
    if Starts(nodes, source, plan) {
      SameHostTwice(nodes, source, plan, id, targets);
      assert false;
    }
  }

  lemma SameHostTwice(nodes: Cluster, source: string, plan: Plan, id: string, targets: seq<string>)
    requires plan == Broadcast(id, targets) && Starts(nodes, source, plan)
    ensures source !in targets && forall i, j :: 0 <= i < j < |targets| ==> targets[i] != targets[j]
  {
    BroadcastLegs(id, targets);
    forall i | 0 <= i < |targets|
      ensures targets[i] != source
    {
      SameBufferSameDevice(nodes, source, plan, i, i);
    }
    forall i, j | 0 <= i < j < |targets|
      ensures targets[i] != targets[j]
    {
      SameBufferSameDevice(nodes, source, plan, i, j);
    }
  }

  /** The content of a buffer after a broadcast of `id`: at the targets the source's whole half-float elements,
      and as before everywhere else. */
  lemma BroadcastContent(nodes: Cluster, source: string, id: string, bucketSize: nat, targets: seq<string>,
                         after: Cluster, host: string, k: string)
    requires AllSound(nodes) && HasBuffer(nodes, source, id, bucketSize)
    requires host in targets ==> HasBuffer(nodes, host, id, bucketSize)
    requires |Broadcast(id, targets).legs| == |targets| && Broadcast(id, targets).bufferId == id
    requires ExactlyCopied(nodes, source, Broadcast(id, targets), |targets|, after)
    requires host in nodes && Tracked(nodes[host], k)
    ensures host in after && after[host].table == nodes[host].table && Tracked(after[host], k)
    ensures host in targets && k == id ==> bucketSize <= |Bytes(nodes[source], id)|
    ensures host in targets && k == id ==> bucketSize <= |Bytes(nodes[host], k)|
    ensures Bytes(after[host], k) == if host in targets && k == id
                                     then HalfCopy(Bytes(nodes[source], id), Bytes(nodes[host], k), bucketSize)
                                     else Bytes(nodes[host], k)
  {
    ShapeAt(nodes, after, host);
    SizeFits(nodes[source], id);
    if host in targets {
      SizeFits(nodes[host], id);
    }
    var r, was, src := Bytes(after[host], k), Bytes(nodes[host], k), Bytes(nodes[source], id);
    forall at | 0 <= at < |r|
      ensures r[at] == if host in targets && k == id && at < 2 * (bucketSize / 2) then src[at] else was[at]
    {
      ByteAt(nodes, source, id, bucketSize, targets, after, host, k, at);
    }
    IsHalfCopy(r, was, src, host in targets && k == id, bucketSize);
  }

  lemma ByteAt(nodes: Cluster, source: string, id: string, bucketSize: nat, targets: seq<string>,
               after: Cluster, host: string, k: string, at: nat)
    requires HasBuffer(nodes, source, id, bucketSize) && host in nodes && Tracked(nodes[host], k)
    requires |Broadcast(id, targets).legs| == |targets| && Broadcast(id, targets).bufferId == id
    requires ExactlyCopied(nodes, source, Broadcast(id, targets), |targets|, after)
    requires at < |Bytes(nodes[host], k)|
    ensures ByteAfter(nodes, after, Bytes(nodes[source], id), host in targets && k == id && at < 2 * (bucketSize / 2),
                      host, k, at)
  {
    BroadcastHit(id, targets, bucketSize, host, k, at);
    assert CopiedAt(nodes, source, Broadcast(id, targets), |targets|, after, host, k, at);
  }

  lemma IsHalfCopy(r: seq<Byte>, dst: seq<Byte>, src: seq<Byte>, copied: bool, size: nat)
    requires |r| == |dst| && (copied ==> size <= |src| && size <= |dst|)
    requires forall at :: 0 <= at < |r| ==> r[at] == if copied && at < 2 * (size / 2) then src[at] else dst[at]
    ensures r == if copied then HalfCopy(src, dst, size) else dst
  {}

  lemma BroadcastHit(id: string, targets: seq<string>, size: nat, host: string, k: string, at: nat)
    requires |Broadcast(id, targets).legs| == |targets|
    ensures Hit(Broadcast(id, targets), |targets|, size, host, k, at) <==>
            host in targets && k == id && at < 2 * (size / 2)
  {
    var plan := Broadcast(id, targets);
    BroadcastLegs(id, targets);
    if host in targets && k == id && at < 2 * (size / 2) {
      var i :| 0 <= i < |targets| && targets[i] == host;
      assert InRange(plan, i, size, host, k, at);
    }
  }

  // ----- What a worker sees -----

  /** The call after the packing. */
  function Call(nodes: Cluster, y: Sync, ncclId: string, wires: seq<seq<string>>, wreck: Wreck): Effect
    requires Packable(nodes, y) && Wired(Broadcast(y.id, y.targets).legs, wires)
  {
    Propagated(PackedOn(nodes, y), y.trainer, Broadcast(y.id, y.targets), ncclId, wires, wreck)
  }

  /** The worker's host takes part, and the worker has mapped its memory. */
  ghost predicate Works(nodes: Cluster, y: Sync, w: Worker) {
    (w.host == y.trainer || w.host in y.targets) && Maps(nodes, w.host, y.id, w.gpu)
  }

  function WorkerKey(nodes: Cluster, y: Sync, w: Worker): string
    requires w.host in nodes && y.id in nodes[w.host].table
  {
    Mapped(nodes, w.host, y.id, w.gpu)
  }

  /** What the worker's memory holds after packing and propagating. */
  ghost function Seen(nodes: Cluster, y: Sync, w: Worker): seq<Byte>
    requires Prepared(nodes, y) && Works(nodes, y, w)
  {
    PreparedPackable(nodes, y);
    WorkerHasBuffer(nodes, y, w);
    var packed, k := PackedOn(nodes, y), WorkerKey(nodes, y, w);
    PackingChanges(nodes, y, w.host, k);
    PackingChanges(nodes, y, y.trainer, y.id);
    if w.host in y.targets && k == y.id
    then HalfCopy(Bytes(packed[y.trainer], y.id), Bytes(nodes[w.host], y.id), y.bucketSize)
    else Bytes(packed[w.host], k)
  }

  lemma WorkerHasBuffer(nodes: Cluster, y: Sync, w: Worker)
    requires Prepared(nodes, y) && Works(nodes, y, w)
    ensures HasBuffer(nodes, w.host, y.id, y.bucketSize)
    ensures Tracked(nodes[w.host], WorkerKey(nodes, y, w))
    ensures y.bucketSize <= |Bytes(nodes[w.host], WorkerKey(nodes, y, w))|
    ensures y.bucketSize <= |Bytes(nodes[w.host], y.id)| && y.bucketSize <= |Bytes(nodes[y.trainer], y.id)|
  {
    if w.host != y.trainer {
      var i :| 0 <= i < |y.targets| && y.targets[i] == w.host;
    }
    MappedFits(nodes, w.host, y.id, y.bucketSize, w.gpu);
    SizeFits(nodes[w.host], y.id);
    SizeFits(nodes[y.trainer], y.id);
  }

  /** The trainer's packing reaches the worker's memory: they map the same memory, or both the staged buffers, between
      which the broadcast copies. */
  ghost predicate Fed(nodes: Cluster, y: Sync, w: Worker)
    requires Prepared(nodes, y) && Works(nodes, y, w)
  {
    WorkerHasBuffer(nodes, y, w);
    var mine, packed := WorkerKey(nodes, y, w), TrainerKey(nodes, y);
    if w.host == y.trainer then mine == packed else mine == y.id && packed == y.id
  }

  /** A broadcast of a buffer that starts with the list brings all of it: it fits the whole half-floats, or the last
      byte was there before. */
  predicate BringsAll(was: seq<Byte>, ws: Weights, size: nat) {
    var n := |Payload(ws, |ws|)|;
    n <= 2 * (size / 2) || (0 < n <= |was| && was[n - 1] == Payload(ws, |ws|)[n - 1])
  }

  /** Nothing is lost on the way: the broadcast copies whole half-floats, so the last byte of an odd bucket stays
      as it was on the targets. */
  ghost predicate Whole(nodes: Cluster, y: Sync, w: Worker)
    requires Prepared(nodes, y) && Works(nodes, y, w)
  {
    WorkerHasBuffer(nodes, y, w);
    w.host == y.trainer || BringsAll(Bytes(nodes[w.host], y.id), y.ws, y.bucketSize)
  }

  /** The buffer starts with the packed list. */
  predicate StartsWith(buf: seq<Byte>, ws: Weights) {
    |Payload(ws, |ws|)| <= |buf| && buf[..|Payload(ws, |ws|)|] == Payload(ws, |ws|)
  }

  lemma HalfCopyStarts(src: seq<Byte>, dst: seq<Byte>, size: nat, ws: Weights)
    requires size <= |src| && size <= |dst| && StartsWith(src, ws) && |Payload(ws, |ws|)| <= size
    ensures StartsWith(HalfCopy(src, dst, size), ws) <==> BringsAll(dst, ws, size)
  {
    PrefixOfHalfCopy(src, dst, size, Payload(ws, |ws|));
    hide Payload, HalfCopy;
  }

  lemma PrefixOfHalfCopy(src: seq<Byte>, dst: seq<Byte>, size: nat, payload: seq<Byte>)
    requires size <= |src| && size <= |dst| && |payload| <= size && src[..|payload|] == payload
    ensures HalfCopy(src, dst, size)[..|payload|] == payload <==>
            |payload| <= 2 * (size / 2) || dst[|payload| - 1] == payload[|payload| - 1]
  {
    var r, n := HalfCopy(src, dst, size), |payload|;
    assert forall i :: 0 <= i < n ==> payload[i] == src[i];
    assert forall i :: 0 <= i < n - 1 ==> r[..n][i] == payload[i];
    if n > 2 * (size / 2) {
      assert r[n - 1] == dst[n - 1];
      assert r[..n] == payload <==> r[n - 1] == payload[n - 1];
    } else {
      assert r[..n] == payload;
    }
  }

  /** What a worker sees that the packing reaches. */
  lemma FedSees(nodes: Cluster, y: Sync, w: Worker)
    requires Prepared(nodes, y) && Works(nodes, y, w) && Fed(nodes, y, w)
    ensures Packable(nodes, y) && HasBuffer(nodes, w.host, y.id, y.bucketSize)
    ensures w.host != y.trainer ==> y.bucketSize <= |PackedBytes(nodes, y)|
    ensures w.host != y.trainer ==> y.bucketSize <= |Bytes(nodes[w.host], y.id)|
    ensures Seen(nodes, y, w) == if w.host == y.trainer then PackedBytes(nodes, y)
                                 else HalfCopy(PackedBytes(nodes, y), Bytes(nodes[w.host], y.id), y.bucketSize)
  {
    PreparedPackable(nodes, y);
    WorkerHasBuffer(nodes, y, w);
    PackingChanges(nodes, y, w.host, WorkerKey(nodes, y, w));
    PackingChanges(nodes, y, y.trainer, y.id);
    hide AllGood, AllSound, PackedBytes;
  }

  /** A worker that the packing reaches sees the list at the start of its memory exactly when nothing is lost. */
  lemma SeenStarts(nodes: Cluster, y: Sync, w: Worker)
    requires Prepared(nodes, y) && Works(nodes, y, w) && Fed(nodes, y, w)
    ensures StartsWith(Seen(nodes, y, w), y.ws) <==> Whole(nodes, y, w)
  {
    FedSees(nodes, y, w);
    WorkerHasBuffer(nodes, y, w);
    PackedStarts(nodes, y);
    if w.host != y.trainer {
      HalfCopyStarts(PackedBytes(nodes, y), Bytes(nodes[w.host], y.id), y.bucketSize, y.ws);
    }
    hide Seen, PackedBytes, StartsWith, Fed, HostsPrepared, BringsAll, HalfCopy, Payload;
  }

  lemma PackedStarts(nodes: Cluster, y: Sync)
    requires Packable(nodes, y)
    ensures StartsWith(PackedBytes(nodes, y), y.ws)
  {}

  /** The list's dictionary is in the buffer where the offset table says. */
  ghost predicate ShowsDict(ws: Weights, buf: seq<Byte>) {
    Describes(Table(ws, |ws|), DictOf(ws, |ws|), buf)
  }

  /** The propagation delivers and leaves in each worker's memory what `Seen` says. */
  lemma MemoryAfter(nodes: Cluster, y: Sync, ncclId: string, wires: seq<seq<string>>, wreck: Wreck, w: Worker)
    requires Prepared(nodes, y) && Carried(Broadcast(y.id, y.targets), ncclId, wires) && Works(nodes, y, w)
    ensures Packable(nodes, y)
    ensures var e, k := Call(nodes, y, ncclId, wires, wreck), WorkerKey(nodes, y, w);
            && e.result == Delivered
            && w.host in e.nodes && e.nodes[w.host].table == nodes[w.host].table && Tracked(e.nodes[w.host], k)
            && Bytes(e.nodes[w.host], k) == Seen(nodes, y, w)
  {
    PreparedPackable(nodes, y);
    var packed, plan := PackedOn(nodes, y), Broadcast(y.id, y.targets);
    CallDelivers(nodes, y, ncclId, wires, wreck);
    var after := Call(nodes, y, ncclId, wires, wreck).nodes;
    WorkerHasBuffer(nodes, y, w);
    PackedIsSound(nodes, y);
    PackedHasBuffer(nodes, y, y.trainer);
    PackedHasBuffer(nodes, y, w.host);
    PackingChanges(nodes, y, w.host, WorkerKey(nodes, y, w));
    PackingChanges(nodes, y, w.host, y.id);
    BroadcastLegs(y.id, y.targets);
    BroadcastContent(packed, y.trainer, y.id, y.bucketSize, y.targets, after, w.host, WorkerKey(nodes, y, w));
  }

  /** With a trainer on its host's staged GPU and a list that fits the whole half-floats, the staged buffers of all
      hosts start with the list. */
  lemma EveryHostHolds(nodes: Cluster, y: Sync, ncclId: string, wires: seq<seq<string>>, wreck: Wreck, host: string)
    requires Prepared(nodes, y) && Carried(Broadcast(y.id, y.targets), ncclId, wires)
    requires TrainerKey(nodes, y) == y.id && |Payload(y.ws, |y.ws|)| <= 2 * (y.bucketSize / 2)
    requires host == y.trainer || host in y.targets
    ensures Packable(nodes, y)
    ensures var e := Call(nodes, y, ncclId, wires, wreck);
            && e.result == Delivered && host in e.nodes && Tracked(e.nodes[host], y.id)
            && StartsWith(Bytes(e.nodes[host], y.id), y.ws)
  {
    if host != y.trainer {
      var i :| 0 <= i < |y.targets| && y.targets[i] == host;
      assert HasBuffer(nodes, y.targets[i], y.id, y.bucketSize);
    }
    var w := Worker(host, nodes[host].table[y.id].gpu, 0);
    assert Works(nodes, y, w) && WorkerKey(nodes, y, w) == y.id;
    MemoryAfter(nodes, y, ncclId, wires, wreck, w);
    SeenStarts(nodes, y, w);
  }

  /** The buffer's byte at this position is as it was. */
  predicate KeptAt(nodes: Cluster, after: Cluster, host: string, id: string, at: int) {
    && host in nodes && Tracked(nodes[host], id) && 0 <= at < |Bytes(nodes[host], id)|
    && host in after && Tracked(after[host], id) && at < |Bytes(after[host], id)|
    && Bytes(after[host], id)[at] == Bytes(nodes[host], id)[at]
  }

  /** Of an odd bucket the last byte stays on the targets as it was. */
  lemma OddBucketLosesLastByte(nodes: Cluster, source: string, id: string, half: nat, targets: seq<string>,
                               after: Cluster, host: string)
    requires HasBuffer(nodes, source, id, 2 * half + 1) && HasBuffer(nodes, host, id, 2 * half + 1)
    requires AllSound(nodes) && |Broadcast(id, targets).legs| == |targets| && Broadcast(id, targets).bufferId == id
    requires ExactlyCopied(nodes, source, Broadcast(id, targets), |targets|, after)
    ensures KeptAt(nodes, after, host, id, 2 * half)
  {
    SizeFits(nodes[host], id);
    HalfOfOdd(half);
    assert Tracked(nodes[host], id);
    hide *;
    ByteAt(nodes, source, id, 2 * half + 1, targets, after, host, id, 2 * half);
    Unhit(nodes, after, Bytes(nodes[source], id), host, id, 2 * half);
  }

  lemma HalfOfOdd(half: nat)
    ensures (2 * half + 1) / 2 == half
  {}

  lemma Unhit(nodes: Cluster, after: Cluster, src: seq<Byte>, host: string, id: string, at: nat)
    requires ByteAfter(nodes, after, src, false, host, id, at)
    ensures KeptAt(nodes, after, host, id, at)
  {}

  lemma PackedHasBuffer(nodes: Cluster, y: Sync, host: string)
    requires AllSound(nodes) && Packable(nodes, y) && HasBuffer(nodes, host, y.id, y.bucketSize)
    ensures HasBuffer(PackedOn(nodes, y), host, y.id, y.bucketSize)
  {
    PackingChanges(nodes, y, host, y.id);
  }

  lemma CallDelivers(nodes: Cluster, y: Sync, ncclId: string, wires: seq<seq<string>>, wreck: Wreck)
    requires Prepared(nodes, y) && Carried(Broadcast(y.id, y.targets), ncclId, wires) && Packable(nodes, y)
    ensures var e, plan, packed := Call(nodes, y, ncclId, wires, wreck), Broadcast(y.id, y.targets), PackedOn(nodes, y);
            && e.result == Delivered && SourceTracked(packed, y.trainer, plan) && |plan.legs| == |y.targets|
            && Sendworthy(packed, y.trainer, plan) && ExactlyCopied(packed, y.trainer, plan, |y.targets|, e.nodes)
  {
    var packed, plan := PackedOn(nodes, y), Broadcast(y.id, y.targets);
    PackedIsSound(nodes, y);
    PackedHasBuffer(nodes, y, y.trainer);
    forall i | 0 <= i < |y.targets|
      ensures HasBuffer(packed, y.targets[i], y.id, y.bucketSize)
    {
      PackedHasBuffer(nodes, y, y.targets[i]);
    }
    BroadcastDelivers(packed, y.trainer, y.id, y.bucketSize, y.targets);
    BroadcastLegs(y.id, y.targets);
    SendworthyIff(packed, y.trainer, plan);
    DeliversExactly(packed, y.trainer, plan, ncclId, wires, wreck);
  }

  // ----- Signals -----

  /** The signals to the consumers of one buffer, in order. */
  function SignalsAt(told: seq<Told>, host: string, id: string): seq<N.Signal> {
    if told == [] then []
    else (if told[0].node == host && told[0].id == id then [told[0].signal] else []) + SignalsAt(told[1..], host, id)
  }

  lemma {:induction false} SignalsOfBoth(a: seq<Told>, b: seq<Told>, host: string, id: string)
    ensures SignalsAt(a + b, host, id) == SignalsAt(a, host, id) + SignalsAt(b, host, id)
  {
    if a == [] {
      assert a + b == b;
    } else {
      assert (a + b)[1..] == a[1..] + b;
      SignalsOfBoth(a[1..], b, host, id);
    }
  }

  lemma {:induction false} OneSignalEach(told: seq<Told>, hosts: seq<string>, id: string, signal: N.Signal,
                                         host: string)
    requires |told| == |hosts| && forall i :: 0 <= i < |hosts| ==> told[i] == Told(hosts[i], id, signal)
    requires forall i, j :: 0 <= i < j < |hosts| ==> hosts[i] != hosts[j]
    ensures SignalsAt(told, host, id) == if host in hosts then [signal] else []
  {
    if hosts != [] {
      OneSignalEach(told[1..], hosts[1..], id, signal, host);
      assert host in hosts <==> host == hosts[0] || host in hosts[1..];
      assert hosts[0] !in hosts[1..];
    }
  }

  lemma {:induction false} LegSignalsAt(y: Sync, signal: N.Signal, host: string)
    requires |Broadcast(y.id, y.targets).legs| == |y.targets|
    requires forall i, j :: 0 <= i < j < |y.targets| ==> y.targets[i] != y.targets[j]
    ensures SignalsAt(LegSignals(Broadcast(y.id, y.targets), |y.targets|, signal), host, y.id)
         == if host in y.targets then [signal] else []
  {
    BroadcastLegs(y.id, y.targets);
    OneSignalEach(LegSignals(Broadcast(y.id, y.targets), |y.targets|, signal), y.targets, y.id, signal, host);
  }

  /** Every host that takes part sends its consumers PRE_UPDATE and then READY. */
  lemma {:induction false} BothSignals(nodes: Cluster, y: Sync, ncclId: string, wires: seq<seq<string>>,
                                       wreck: Wreck, host: string)
    requires Prepared(nodes, y) && Carried(Broadcast(y.id, y.targets), ncclId, wires) && Packable(nodes, y)
    requires host == y.trainer || host in y.targets
    ensures SignalsAt(Call(nodes, y, ncclId, wires, wreck).signals, host, y.id) == [N.PreUpdate, N.Ready]
  {
    CallSignals(nodes, y, ncclId, wires, wreck);
    BroadcastLegs(y.id, y.targets);
    TransferSignals(y, host);
  }

  /** The four passes of a broadcast that delivers. */
  function Passes(y: Sync): seq<Told>
    requires |Broadcast(y.id, y.targets).legs| == |y.targets|
  {
    [Told(y.trainer, y.id, N.PreUpdate)] + LegSignals(Broadcast(y.id, y.targets), |y.targets|, N.PreUpdate)
    + LegSignals(Broadcast(y.id, y.targets), |y.targets|, N.Ready) + [Told(y.trainer, y.id, N.Ready)]
  }

  lemma {:induction false} CallSignals(nodes: Cluster, y: Sync, ncclId: string, wires: seq<seq<string>>, wreck: Wreck)
    requires Prepared(nodes, y) && Carried(Broadcast(y.id, y.targets), ncclId, wires) && Packable(nodes, y)
    ensures |Broadcast(y.id, y.targets).legs| == |y.targets|
    ensures Call(nodes, y, ncclId, wires, wreck).signals == Passes(y)
  {
    var packed, plan := PackedOn(nodes, y), Broadcast(y.id, y.targets);
    CallDelivers(nodes, y, ncclId, wires, wreck);
    PackedIsSound(nodes, y);
    SignalsSent(packed, y.trainer, plan, ncclId, wires, wreck);
    AllSignals(packed, y, wreck);
    BroadcastLegs(y.id, y.targets);
  }

  lemma {:induction false} TransferSignals(y: Sync, host: string)
    requires host == y.trainer || host in y.targets
    requires |Broadcast(y.id, y.targets).legs| == |y.targets| && y.trainer !in y.targets
    requires forall i, j :: 0 <= i < j < |y.targets| ==> y.targets[i] != y.targets[j]
    ensures SignalsAt(Passes(y), host, y.id) == [N.PreUpdate, N.Ready]
  {
    var plan, n := Broadcast(y.id, y.targets), |y.targets|;
    LegSignalsAt(y, N.PreUpdate, host);
    LegSignalsAt(y, N.Ready, host);
    OwnSignalAt(y, N.PreUpdate, host);
    OwnSignalAt(y, N.Ready, host);
    SignalsOfFour([Told(y.trainer, y.id, N.PreUpdate)], LegSignals(plan, n, N.PreUpdate), LegSignals(plan, n, N.Ready),
                  [Told(y.trainer, y.id, N.Ready)], host, y.id);
    hide SignalsAt, LegSignals, Broadcast, PlanOf;
    TwoOfFour(SignalsAt([Told(y.trainer, y.id, N.PreUpdate)], host, y.id),
              SignalsAt(LegSignals(plan, n, N.PreUpdate), host, y.id),
              SignalsAt(LegSignals(plan, n, N.Ready), host, y.id),
              SignalsAt([Told(y.trainer, y.id, N.Ready)], host, y.id), host == y.trainer);
  }

  lemma {:induction false} OwnSignalAt(y: Sync, signal: N.Signal, host: string)
    ensures SignalsAt([Told(y.trainer, y.id, signal)], host, y.id) == if host == y.trainer then [signal] else []
  {
    assert [Told(y.trainer, y.id, signal)][1..] == [];
  }

  lemma TwoOfFour(a: seq<N.Signal>, b: seq<N.Signal>, c: seq<N.Signal>, d: seq<N.Signal>, own: bool)
    requires a == if own then [N.PreUpdate] else []
    requires b == if own then [] else [N.PreUpdate]
    requires c == if own then [] else [N.Ready]
    requires d == if own then [N.Ready] else []
    ensures a + b + c + d == [N.PreUpdate, N.Ready]
  {}

  lemma {:induction false} SignalsOfFour(a: seq<Told>, b: seq<Told>, c: seq<Told>, d: seq<Told>, host: string,
                                         id: string)
    ensures SignalsAt(a + b + c + d, host, id)
         == SignalsAt(a, host, id) + SignalsAt(b, host, id) + SignalsAt(c, host, id) + SignalsAt(d, host, id)
  {
    hide *;
    SignalsOfBoth(a, b, host, id);
    SignalsOfBoth(a + b, c, host, id);
    SignalsOfBoth(a + b + c, d, host, id);
  }

  lemma AllSignals(packed: Cluster, y: Sync, wreck: Wreck)
    requires var plan := Broadcast(y.id, y.targets);
             Sendworthy(packed, y.trainer, plan) && |plan.legs| == |y.targets| && plan.bufferId == y.id
    ensures SignalsOf(packed, y.trainer, Broadcast(y.id, y.targets), wreck) == Passes(y)
  {
    var plan := Broadcast(y.id, y.targets);
    SendworthyIff(packed, y.trainer, plan);
    var oks := TrackedFlags(packed, plan);
    LeadingIs(oks);
    assert forall i :: 0 <= i < |oks| ==> oks[i] == TargetTracked(packed, plan, i);
    assert LeadingTracked(packed, plan) == |y.targets|;
  }

  // ----- Consumers -----

  /** The notify hub of the engine's buffer on one host, between transfers. */
  ghost predicate Watches(nodes: Cluster, host: string, id: string, hub: N.Hub) {
    && N.Inv(hub) && hub.phase == N.Idle
    && host in nodes && Tracked(nodes[host], id) && hub.content == Bytes(nodes[host], id)
  }

  /** The hub after the trainer has packed: only a trainer that maps the staged buffer writes it. */
  function HubPacked(nodes: Cluster, y: Sync, host: string, hub: N.Hub): N.Hub
    requires Packable(nodes, y)
  {
    if host == y.trainer && TrainerKey(nodes, y) == y.id then N.Next(hub, N.Pack(PackedBytes(nodes, y))) else hub
  }

  lemma HubAfterPacking(nodes: Cluster, y: Sync, host: string, hub: N.Hub)
    requires AllSound(nodes) && Packable(nodes, y) && Watches(nodes, host, y.id, hub)
    ensures Watches(PackedOn(nodes, y), host, y.id, HubPacked(nodes, y, host, hub))
    ensures HubPacked(nodes, y, host, hub).listeners == hub.listeners
  {
    PackingChanges(nodes, y, host, y.id);
    if host == y.trainer && TrainerKey(nodes, y) == y.id {
      N.InvStep(hub, N.Pack(PackedBytes(nodes, y)));
    }
  }

  /** A consumer is told PRE_UPDATE with the content that its host's buffer has before the transfer, and then READY
      with the content after it. */
  ghost predicate ToldBoth(before: Cluster, after: Cluster, id: string, w: Worker, hub: N.Hub, hub': N.Hub) {
    && w.consumer in hub.listeners.logs && w.consumer in hub'.listeners.logs
    && w.host in before && Tracked(before[w.host], id) && w.host in after && Tracked(after[w.host], id)
    && var log, log' := hub.listeners.logs[w.consumer], hub'.listeners.logs[w.consumer];
    && |log'| == |log| + 2 && log'[..|log|] == log
    && log'[|log|].signal == N.PreUpdate && log'[|log|].content == Bytes(before[w.host], id)
    && log'[|log| + 1].signal == N.Ready && log'[|log| + 1].content == Bytes(after[w.host], id)
  }

  lemma TransferInforms(before: Cluster, after: Cluster, id: string, w: Worker, hub: N.Hub, f: set<nat>, g: set<nat>)
    requires Watches(before, w.host, id, hub) && w.host in after && Tracked(after[w.host], id)
    requires w.consumer in hub.listeners.sockets && w.consumer !in f && w.consumer !in g
    ensures ToldBoth(before, after, id, w, hub, N.Transfer(hub, Bytes(after[w.host], id), f, g))
  {
    N.TransferSends(hub, w.consumer, Bytes(after[w.host], id), f, g);
  }

  /** A wait that began before the transfer, everything read, returns with READY exactly when it gets both signals
      in one chunk; then the buffer had the new content, and otherwise still the old one, when the last signal of
      the chunk was sent. */
  lemma AfterWait(before: Cluster, after: Cluster, id: string, w: Worker, hub: N.Hub, hub': N.Hub,
                  chunk: seq<N.Signal>, closed: bool)
    requires ToldBoth(before, after, id, w, hub, hub') && chunk != []
    requires chunk <= N.SentSince(hub', w.consumer, |hub.listeners.logs[w.consumer]|)
    ensures N.WaitForReady(chunk, closed) == N.Returns(|chunk| == 2)
    ensures var log' := hub'.listeners.logs[w.consumer];
            var note := log'[|hub.listeners.logs[w.consumer]| + |chunk| - 1];
            note.content == if N.Ready in chunk then Bytes(after[w.host], id) else Bytes(before[w.host], id)
  {
    var p := |hub.listeners.logs[w.consumer]|;
    var sent := N.SentSince(hub', w.consumer, p);
    assert |sent| == 2 && sent[0] == N.PreUpdate && sent[1] == N.Ready;
    assert chunk[0] == sent[0] && (|chunk| == 2 ==> chunk[1] == sent[1]);
  }

  // ----- Delivery -----

  /** Everything about one rollout worker: what its memory holds, when it reads exactly the dictionary of the sent
      list (names in first-insertion order, last tensor per name, with dtype, shape and bytes), and what its
      connection is told. */
  ghost predicate Served(nodes: Cluster, y: Sync, e: Effect, w: Worker, hub: N.Hub)
    requires Prepared(nodes, y) && Works(nodes, y, w) && Packable(nodes, y)
  {
    WorkerHasBuffer(nodes, y, w);
    var k := WorkerKey(nodes, y, w);
    && w.host in e.nodes && Tracked(e.nodes[w.host], k) && Tracked(e.nodes[w.host], y.id)
    && Bytes(e.nodes[w.host], k) == Seen(nodes, y, w)
    && (Reads(y.ws, Bytes(e.nodes[w.host], k)) <==> CanRead(nodes, y, w))
    && SignalsAt(e.signals, w.host, y.id) == [N.PreUpdate, N.Ready]
    && forall f, g :: w.consumer in hub.listeners.sockets && w.consumer !in f && w.consumer !in g ==>
         ToldBoth(PackedOn(nodes, y), e.nodes, y.id, w, HubPacked(nodes, y, w.host, hub),
                  N.Transfer(HubPacked(nodes, y, w.host, hub), Bytes(e.nodes[w.host], y.id), f, g))
  }

  /** Torch can view every name's last offset, and the packing reaches the worker without loss, or what the worker
      sees shows the dictionary all the same. */
  ghost predicate CanRead(nodes: Cluster, y: Sync, w: Worker)
    requires Prepared(nodes, y) && Works(nodes, y, w)
  {
    && Aligned(Table(y.ws, |y.ws|))
    && ((Fed(nodes, y, w) && Whole(nodes, y, w)) || ShowsDict(y.ws, Seen(nodes, y, w)))
  }

  lemma ReadsExactly(nodes: Cluster, y: Sync, w: Worker)
    requires Prepared(nodes, y) && Works(nodes, y, w)
    ensures Reads(y.ws, Seen(nodes, y, w)) <==> CanRead(nodes, y, w)
  {
    ReadsIff(y.ws, Seen(nodes, y, w));
    if Fed(nodes, y, w) && Whole(nodes, y, w) {
      SeenStarts(nodes, y, w);
      TableDescribes(y.ws, |y.ws|, Seen(nodes, y, w));
    }
  }

  /** What a worker sees that the packing does not reach is no more than what was there before: its copy, or between
      the staged buffers what the trainer's staged buffer held. */
  lemma UnfedSees(nodes: Cluster, y: Sync, w: Worker)
    requires Prepared(nodes, y) && Works(nodes, y, w) && !Fed(nodes, y, w)
    ensures HasBuffer(nodes, w.host, y.id, y.bucketSize) && Tracked(nodes[w.host], WorkerKey(nodes, y, w))
    ensures y.bucketSize <= |Bytes(nodes[w.host], y.id)| && y.bucketSize <= |Bytes(nodes[y.trainer], y.id)|
    ensures Seen(nodes, y, w)
         == if w.host in y.targets && WorkerKey(nodes, y, w) == y.id
            then HalfCopy(Bytes(nodes[y.trainer], y.id), Bytes(nodes[w.host], y.id), y.bucketSize)
            else Bytes(nodes[w.host], WorkerKey(nodes, y, w))
  {
    PreparedPackable(nodes, y);
    WorkerHasBuffer(nodes, y, w);
    PackingChanges(nodes, y, w.host, WorkerKey(nodes, y, w));
    PackingChanges(nodes, y, y.trainer, y.id);
  }

  lemma ServedBy(nodes: Cluster, y: Sync, w: Worker, hub: N.Hub, ncclId: string, wires: seq<seq<string>>, wreck: Wreck)
    requires Prepared(nodes, y) && Carried(Broadcast(y.id, y.targets), ncclId, wires) && Packable(nodes, y)
    requires Works(nodes, y, w) && Watches(nodes, w.host, y.id, hub)
    ensures Served(nodes, y, Call(nodes, y, ncclId, wires, wreck), w, hub)
  {
    var e := Call(nodes, y, ncclId, wires, wreck);
    MemoryAfter(nodes, y, ncclId, wires, wreck, w);
    ReadsExactly(nodes, y, w);
    BothSignals(nodes, y, ncclId, wires, wreck, w.host);
    HubAfterPacking(nodes, y, w.host, hub);
    StagedAfter(nodes, y, ncclId, wires, wreck, w);
    forall f, g | w.consumer in hub.listeners.sockets && w.consumer !in f && w.consumer !in g
      ensures ToldBoth(PackedOn(nodes, y), e.nodes, y.id, w, HubPacked(nodes, y, w.host, hub),
                       N.Transfer(HubPacked(nodes, y, w.host, hub), Bytes(e.nodes[w.host], y.id), f, g))
    {
      TransferInforms(PackedOn(nodes, y), e.nodes, y.id, w, HubPacked(nodes, y, w.host, hub), f, g);
    }
  }

  lemma StagedAfter(nodes: Cluster, y: Sync, ncclId: string, wires: seq<seq<string>>, wreck: Wreck, w: Worker)
    requires Prepared(nodes, y) && Carried(Broadcast(y.id, y.targets), ncclId, wires) && Packable(nodes, y)
    requires Works(nodes, y, w)
    ensures var e := Call(nodes, y, ncclId, wires, wreck); w.host in e.nodes && Tracked(e.nodes[w.host], y.id)
  {
    CallDelivers(nodes, y, ncclId, wires, wreck);
    WorkerHasBuffer(nodes, y, w);
    PackingChanges(nodes, y, w.host, y.id);
    ShapeAt(PackedOn(nodes, y), Call(nodes, y, ncclId, wires, wreck).nodes, w.host);
  }

  /** The rollout workers of the topology, each with its memory mapped and its host's hub between transfers. */
  ghost predicate Rolling(nodes: Cluster, y: Sync, metadata: seq<Option<string>>, trainers: nat, workers: seq<Worker>,
                          hubs: map<string, N.Hub>) {
    && |workers| == |metadata| && trainers <= |metadata|
    && TellsMaster(trainers, |metadata| - trainers, metadata, y.trainer, y.targets)
    && forall i :: trainers <= i < |metadata| && metadata[i].Some? ==>
         && workers[i].host == metadata[i].value && Maps(nodes, workers[i].host, y.id, workers[i].gpu)
         && workers[i].host in hubs && Watches(nodes, workers[i].host, y.id, hubs[workers[i].host])
  }

  /** End-to-end delivery. Packing succeeds, the propagation delivers, and every rollout worker is served: it is told
      READY with the new content of its host's staged buffer, and through the memory of its own GPU it reads exactly
      the dictionary of the sent list if and only if torch can view every name's last offset and the packing reaches
      that memory (or the memory shows the dictionary all the same). */
  lemma Delivery(nodes: Cluster, y: Sync, metadata: seq<Option<string>>, trainers: nat, workers: seq<Worker>,
                 hubs: map<string, N.Hub>, ncclId: string, wires: seq<seq<string>>, wreck: Wreck)
    requires Prepared(nodes, y) && Rolling(nodes, y, metadata, trainers, workers, hubs)
    requires Carried(Broadcast(y.id, y.targets), ncclId, wires)
    ensures Packable(nodes, y) && Call(nodes, y, ncclId, wires, wreck).result == Delivered
    ensures forall i :: trainers <= i < |metadata| && metadata[i].Some? ==>
              && Works(nodes, y, workers[i])
              && Served(nodes, y, Call(nodes, y, ncclId, wires, wreck), workers[i], hubs[workers[i].host])
  {
    PreparedPackable(nodes, y);
    CallDelivers(nodes, y, ncclId, wires, wreck);
    MasterCovers(trainers, |metadata| - trainers, metadata, y.trainer, y.targets);
    forall i | trainers <= i < |metadata| && metadata[i].Some?
      ensures Works(nodes, y, workers[i])
              && Served(nodes, y, Call(nodes, y, ncclId, wires, wreck), workers[i], hubs[workers[i].host])
    {
      assert metadata[i] == Some(workers[i].host);
      ServedBy(nodes, y, workers[i], hubs[workers[i].host], ncclId, wires, wreck);
    }
  }

  /** With a trainer on the GPU where its host's buffer is staged, and a list that fits the whole half-floats, a worker
      reads exactly the dictionary if and only if torch can view the offsets, and the worker is on its host's staged
      GPU or its older copy shows the dictionary already. */
  lemma OnStagedGpuIff(nodes: Cluster, y: Sync, w: Worker)
    requires Prepared(nodes, y) && Works(nodes, y, w)
    requires TrainerKey(nodes, y) == y.id && |Payload(y.ws, |y.ws|)| <= 2 * (y.bucketSize / 2)
    ensures Tracked(nodes[w.host], WorkerKey(nodes, y, w))
    ensures CanRead(nodes, y, w) <==>
            && Aligned(Table(y.ws, |y.ws|))
            && (w.gpu == nodes[w.host].table[y.id].gpu || ShowsDict(y.ws, Bytes(nodes[w.host], WorkerKey(nodes, y, w))))
  {
    WorkerHasBuffer(nodes, y, w);
    KeyOnStagedGpu(nodes, y, w);
    if WorkerKey(nodes, y, w) != y.id {
      UnfedSees(nodes, y, w);
    }
  }

  /** Only a process on the staged GPU maps the staged buffer itself. */
  lemma KeyOnStagedGpu(nodes: Cluster, y: Sync, w: Worker)
    requires Prepared(nodes, y) && Works(nodes, y, w)
    ensures WorkerKey(nodes, y, w) == y.id <==> w.gpu == nodes[w.host].table[y.id].gpu
  {
    RelocationKeyUnique(y.id, w.gpu, y.id, 0);
  }

  /** A worker whose copy is made after the transfer reads from it what the staged buffer of its host gives, when the
      list fits the whole half-floats. */
  lemma CopyMadeAfterwards(s: State, id: string, gpu: int, a: Alloc, ws: Weights)
    requires Sound(s) && Tree(s) && Possible(s, RequestFd(id, gpu, Allocated(a))) && NeedsCopy(s, id, gpu)
    requires ValidWeights(ws) && |Payload(ws, |ws|)| <= 2 * (s.table[id].size / 2)
    ensures Tracked(s, id) && Tracked(FdNext(s, id, gpu, Allocated(a)), RelocationKey(id, gpu))
    ensures Reads(ws, Bytes(FdNext(s, id, gpu, Allocated(a)), RelocationKey(id, gpu))) <==> Reads(ws, Bytes(s, id))
  {
    R.FreshCopyEqualsParent(s, id, gpu, a);
    SamePrefixReads(ws, Bytes(FdNext(s, id, gpu, Allocated(a)), RelocationKey(id, gpu)), Bytes(s, id),
                    2 * (s.table[id].size / 2));
  }

  lemma SamePrefixReads(ws: Weights, a: seq<Byte>, b: seq<Byte>, n: nat)
    requires ValidWeights(ws) && R.SamePrefix(a, b, n) && |Payload(ws, |ws|)| <= n
    ensures Reads(ws, a) <==> Reads(ws, b)
  {
    var m := |Payload(ws, |ws|)|;
    assert a[..m] == a[..n][..m] && b[..m] == b[..n][..m];
    ReadsIff(ws, a);
    ReadsIff(ws, b);
    if ShowsDict(ws, a) {
      DescribesPrefix(ws, a, b);
    }
    if ShowsDict(ws, b) {
      DescribesPrefix(ws, b, a);
    }
  }

  /** What a worker reads after its wait: with READY in the chunk, the content that READY announced; with PRE_UPDATE
      alone, the content from before the transfer. On the targets that is the old content. */
  lemma ReadAfterWait(nodes: Cluster, y: Sync, e: Effect, w: Worker, hub: N.Hub, f: set<nat>, g: set<nat>,
                      chunk: seq<N.Signal>, closed: bool)
    requires Prepared(nodes, y) && Packable(nodes, y) && Works(nodes, y, w) && w.host in y.targets
    requires Served(nodes, y, e, w, hub) && w.host in nodes && y.id in nodes[w.host].table
    requires WorkerKey(nodes, y, w) == y.id
    requires w.consumer in hub.listeners.sockets && w.consumer in hub.listeners.logs
    requires w.consumer !in f && w.consumer !in g && chunk != []
    requires var hub' := N.Transfer(hub, Bytes(e.nodes[w.host], y.id), f, g);
             && w.consumer in hub'.listeners.logs
             && |hub.listeners.logs[w.consumer]| <= |hub'.listeners.logs[w.consumer]|
             && chunk <= N.SentSince(hub', w.consumer, |hub.listeners.logs[w.consumer]|)
    ensures var hub' := N.Transfer(hub, Bytes(e.nodes[w.host], y.id), f, g);
            var p := |hub.listeners.logs[w.consumer]| + |chunk| - 1;
            && p < |hub'.listeners.logs[w.consumer]| && Tracked(nodes[w.host], y.id)
            && (if N.WaitForReady(chunk, closed) == N.Returns(true)
                then Reads(y.ws, hub'.listeners.logs[w.consumer][p].content) <==> CanRead(nodes, y, w)
                else hub'.listeners.logs[w.consumer][p].content == Bytes(nodes[w.host], y.id))
  {
    var hub' := N.Transfer(hub, Bytes(e.nodes[w.host], y.id), f, g);
    assert HubPacked(nodes, y, w.host, hub) == hub;
    assert ToldBoth(PackedOn(nodes, y), e.nodes, y.id, w, hub, hub');
    WorkerHasBuffer(nodes, y, w);
    PackingChanges(nodes, y, w.host, y.id);
    AfterWait(PackedOn(nodes, y), e.nodes, y.id, w, hub, hub', chunk, closed);
  }

  // ----- A worker on another GPU, by example -----

  const STAGED := Stage(StageRequest("c", "b", 2, -1, 0), StageAnswer(None, Allocated(Alloc(1, 1, [0, 0])), true))
  const COPIED := RequestFd("b", 1, Allocated(Alloc(2, 2, [0, 0])))

  /** The buffer was staged, on GPU 0, and then copied for a worker on GPU 1. */
  const NODE := State(2, map["c" := "b"],
                      map["b" := Entry(1, 1, 2, 0, Some(1)), "b_gpu1" := Entry(2, 2, 2, 1, None)], {"b"},
                      map[1 := Memory(0, [0, 0]), 2 := Memory(1, [0, 0])], map[1 := 1, 2 := 2])

  const WEIGHTS: Weights := [("w", Tensor(Dtype("uint8", 1), [1], [7]))]

  const STAGED_NODE := State(2, map["c" := "b"], map["b" := Entry(1, 1, 2, 0, Some(1))], {"b"},
                             map[1 := Memory(0, [0, 0])], map[1 := 1])

  lemma StageStep()
    ensures Sound(A.Empty(2)) && Tree(A.Empty(2)) && Possible(A.Empty(2), STAGED) && WellNamed(STAGED)
    ensures Next(A.Empty(2), STAGED) == STAGED_NODE && Sound(STAGED_NODE) && IsStagedId("b")
  {
    A.EmptyIsSound(2);
    IdIsStaged(STAGED.req);
    assert Id(STAGED.req) == "b" && StagedSize(STAGED.req) == 2 && StagedGpu(STAGED.req, STAGED.answer) == 0;
    hide Sound, Tree;
    SoundStep(A.Empty(2), STAGED);
  }

  lemma CopyStep()
    requires Sound(STAGED_NODE)
    ensures Possible(STAGED_NODE, COPIED) && Next(STAGED_NODE, COPIED) == NODE && Sound(NODE)
    ensures RelocationKey("b", 1) == "b_gpu1"
  {
    assert Show(1) == "1" && RelocationKey("b", 1) == "b_gpu1";
    var zeros: seq<Byte> := [0, 0];
    assert HalfCopy(zeros, zeros, 2) == zeros;
    var t := FdNext(STAGED_NODE, "b", 1, Allocated(Alloc(2, 2, [0, 0])));
    assert t.table == NODE.table && t.memory == NODE.memory && t.fds == NODE.fds;
    SoundStep(STAGED_NODE, COPIED);
  }

  lemma {:induction false} NodeReached()
    ensures Sound(A.Empty(2)) && A.PossibleRun(A.Empty(2), [STAGED, COPIED])
    ensures A.Run(A.Empty(2), [STAGED, COPIED]) == NODE
    ensures Sound(NODE) && Tree(NODE) && IsStagedId("b") && RelocationKey("b", 1) == "b_gpu1"
  {
    StageStep();
    CopyStep();
    TwoSteps(A.Empty(2), STAGED, STAGED_NODE, COPIED, NODE);
    A.RunKeepsInvariants(A.Empty(2), [STAGED, COPIED]);
    hide *;
  }

  lemma {:induction false} TwoSteps(s: State, e: Event, t: State, e': Event, u: State)
    requires Sound(s) && Possible(s, e) && WellNamed(e) && Next(s, e) == t
    requires Sound(t) && Possible(t, e') && WellNamed(e') && Next(t, e') == u && Sound(u)
    ensures A.PossibleRun(s, [e, e']) && A.Run(s, [e, e']) == u
  {
    hide Next, Possible, WellNamed, Sound;
    assert [e, e'][1..] == [e'] && [e'][1..] == [];
    assert A.PossibleRun(u, []) && A.Run(u, []) == u;
    assert A.PossibleRun(t, [e']) && A.Run(t, [e']) == u;
  }

  lemma {:induction false} ExampleFits()
    ensures ValidWeights(WEIGHTS) && |Payload(WEIGHTS, 1)| == 1 && Aligned(Table(WEIGHTS, 1))
  {
    assert Numel([]) == 1 && [1][..0] == [];
    assert WEIGHTS[0].1.Valid();
    DescendingIsAligned(WEIGHTS, 1);
  }

  lemma {:induction false} ExamplePrepared()
    ensures var y := Sync("t", 0, "b", 2, WEIGHTS, []);
            && Prepared(map["t" := NODE], y)
            && Works(map["t" := NODE], y, Worker("t", 0, 0)) && Works(map["t" := NODE], y, Worker("t", 1, 1))
  {
    NodeReached();
    ExampleFits();
    hide ValidWeights, Payload, Sound, Tree, IsStagedId, RelocationKey;
  }

  lemma {:induction false} ZerosShowNothing()
    ensures !ShowsDict(WEIGHTS, [0, 0])
  {
    var meta, d := Table(WEIGHTS, 1), DictOf(WEIGHTS, 1);
    assert Table(WEIGHTS, 0) == Dict([], map[]) && "w" in meta.vals && d.vals["w"] == WEIGHTS[0].1;
    assert meta.vals["w"].offset == 0;
    var zeros: seq<Byte> := [0, 0];
    assert zeros[0..1][0] == 0;
  }

  lemma {:induction false} ExampleSeen()
    ensures var nodes, y := map["t" := NODE], Sync("t", 0, "b", 2, WEIGHTS, []);
            && Prepared(nodes, y) && Works(nodes, y, Worker("t", 0, 0)) && Works(nodes, y, Worker("t", 1, 1))
            && CanRead(nodes, y, Worker("t", 0, 0)) && !CanRead(nodes, y, Worker("t", 1, 1))
  {
    NodeReached();
    ExampleFits();
    ExamplePrepared();
    ZerosShowNothing();
    hide Prepared, Works, Payload, Table, DictOf, Describes, ShowsDict, Sound, Tree, RelocationKey, Seen;
    UnfedSees(map["t" := NODE], Sync("t", 0, "b", 2, WEIGHTS, []), Worker("t", 1, 1));
  }

  /** The failing input: after a propagation that delivers an aligned list, the worker on the staged buffer's GPU
      reads the list, and the worker whose copy was made before reads zeros. */
  lemma {:induction false} OtherGpuReadsOld(ncclId: string, wreck: Wreck)
    requires |ncclId| == 128
    ensures var nodes, y := map["t" := NODE], Sync("t", 0, "b", 2, WEIGHTS, []);
            && Packable(nodes, y) && Wired(Broadcast("b", []).legs, [])
            && var e := Call(nodes, y, ncclId, [], wreck);
            && e.result == Delivered && "t" in e.nodes
            && Tracked(e.nodes["t"], "b") && Reads(WEIGHTS, Bytes(e.nodes["t"], "b"))
            && Tracked(e.nodes["t"], "b_gpu1") && !Reads(WEIGHTS, Bytes(e.nodes["t"], "b_gpu1"))
  {
    var nodes, y, w0, w1 := map["t" := NODE], Sync("t", 0, "b", 2, WEIGHTS, []), Worker("t", 0, 0), Worker("t", 1, 1);
    ExampleSeen();
    ExampleKeys();
    NothingCarried(ncclId);
    hide *;
    MemoryAfter(nodes, y, ncclId, [], wreck, w0);
    MemoryAfter(nodes, y, ncclId, [], wreck, w1);
    ReadsExactly(nodes, y, w0);
    ReadsExactly(nodes, y, w1);
  }

  lemma NothingCarried(ncclId: string)
    requires |ncclId| == 128
    ensures Carried(Broadcast("b", []), ncclId, []) && Wired(Broadcast("b", []).legs, [])
  {}

  lemma ExampleKeys()
    ensures var nodes, y := map["t" := NODE], Sync("t", 0, "b", 2, WEIGHTS, []);
            && "b" in NODE.table && WorkerKey(nodes, y, Worker("t", 0, 0)) == "b"
            && WorkerKey(nodes, y, Worker("t", 1, 1)) == "b_gpu1"
  {
    NodeReached();
  }

  /** The communicator of a broadcast to the topology's targets has one rank per distinct host, and the
      trainer's host only as rank 0. */
  lemma OneRankPerHost(id: string, trainer: string, metadata: seq<Option<string>>, trainers: nat, rollouts: nat,
                       targets: seq<string>)
    requires TellsMaster(trainers, rollouts, metadata, trainer, targets)
    ensures var plan := Broadcast(id, targets);
            && (forall i :: 0 <= i < |plan.legs| ==> plan.legs[i].node != trainer)
            && (forall i, j :: 0 <= i < j < |plan.legs| ==> plan.legs[i].node != plan.legs[j].node)
            && (forall k :: trainers <= k < |metadata| && metadata[k].Some? && metadata[k].value != trainer ==>
                  exists i :: 0 <= i < |plan.legs| && plan.legs[i].node == metadata[k].value)
  {
    var plan := Broadcast(id, targets);
    BroadcastLegs(id, targets);
    MasterCovers(trainers, rollouts, metadata, trainer, targets);
    assert forall i :: 0 <= i < |targets| ==> targets[i] in targets && plan.legs[i].node == targets[i];
    forall k | trainers <= k < |metadata| && metadata[k].Some? && metadata[k].value != trainer
      ensures exists i :: 0 <= i < |plan.legs| && plan.legs[i].node == metadata[k].value
    {
      var h := metadata[k].value;
      assert metadata[k] == Some(h) && h in targets;
      var i :| 0 <= i < |targets| && targets[i] == h;
      assert plan.legs[i].node == h;
    }
  }
}
