/** Repeated syncs: what one call leaves to start the next from, and what workers read after many. */
module TrainingLoop {
  import opened Text
  import opened Keys
  import opened DriverState
  import opened DriverInvariants
  import opened Propagation
  import opened PropagationProofs
  import opened PropagationTheorems
  import opened Packing
  import opened PackingProofs
  import opened EndToEnd
  import R = Relocation
  import N = Notify

  // ----- A call changes contents only -----

  lemma SoundShape(s: State, t: State)
    requires Sound(s) && SameShape(s, t)
    ensures Sound(t)
  {
    PlacesAt(s, t);
    forall k | k in t.table
      ensures Backed(t, t.table[k])
    {
      assert Backed(s, s.table[k]);
    }
  }

  lemma TreeShape(s: State, t: State)
    requires Tree(s) && SameShape(s, t)
    ensures Tree(t)
  {
    TreeKept(s, t);
  }

  lemma WreckedShape(nodes: Cluster, wreck: Wreck)
    ensures ShapeOf(Wrecked(nodes, wreck)) == ShapeOf(nodes)
  {
    forall n | n in nodes
      ensures SameShape(Wrecked(nodes, wreck)[n], nodes[n])
    {
      if n in wreck.contents {
        assert PlacesOf(WreckedMemory(nodes[n].memory, wreck.contents[n])) == PlacesOf(nodes[n].memory);
      }
    }
    ShapesEqual(Wrecked(nodes, wreck), nodes);
  }

  /** Whatever the wires deliver and however the call ends, it changes the contents of memory and nothing else. */
  lemma CallKeepsShape(nodes: Cluster, source: string, plan: Plan, ncclId: string, wires: seq<seq<string>>,
                       wreck: Wreck)
    requires Wired(plan.legs, wires)
    ensures ShapeOf(Propagated(nodes, source, plan, ncclId, wires, wreck).nodes) == ShapeOf(nodes)
  {
    if SourceTracked(nodes, source, plan) {
      var ps := Joiners(Answers(nodes, plan.legs, wires));
      ConcludedShape(nodes, source, plan, ncclId, ps, wreck);
      hide Joiners, Answers, Concluded;
    }
  }

  lemma ConcludedShape(nodes: Cluster, source: string, plan: Plan, ncclId: string, ps: seq<Participant>, wreck: Wreck)
    requires SourceTracked(nodes, source, plan)
    ensures ShapeOf(Concluded(nodes, source, plan, ncclId, ps, wreck).nodes) == ShapeOf(nodes)
  {
    var n := Completed(plan, SourceSize(nodes, source, plan), ps);
    TransferredShape(nodes, source, plan, SourceBytes(nodes, source, plan), ps, n, wreck);
    hide ShapeOf, Completed, Transferred, Ranked, OnePerDevice;
  }

  lemma TransferredShape(nodes: Cluster, source: string, plan: Plan, src: seq<Byte>, ps: seq<Participant>, n: nat,
                         wreck: Wreck)
    requires n <= |ps|
    ensures ShapeOf(Transferred(nodes, source, plan, src, ps, n, wreck).nodes) == ShapeOf(nodes)
  {
    WreckedShape(nodes, wreck);
    ShapeAfter(nodes, plan, src, ps, n);
    hide ShapeOf, Wrecked, DepositAll, Notified, InBounds;
  }

  lemma GoodShape(a: Cluster, b: Cluster)
    requires AllGood(a) && ShapeOf(a) == ShapeOf(b)
    ensures AllGood(b)
  {
    forall n | n in b
      ensures Sound(b[n]) && Tree(b[n])
    {
      ShapeAt(a, b, n);
      SoundShape(a[n], b[n]);
      TreeShape(a[n], b[n]);
    }
  }

  /** So the invariants of all nodes survive every call. */
  lemma CallKeepsGood(nodes: Cluster, source: string, plan: Plan, ncclId: string, wires: seq<seq<string>>, wreck: Wreck)
    requires AllGood(nodes) && Wired(plan.legs, wires)
    ensures AllGood(Propagated(nodes, source, plan, ncclId, wires, wreck).nodes)
  {
    CallKeepsShape(nodes, source, plan, ncclId, wires, wreck);
    GoodShape(nodes, Propagated(nodes, source, plan, ncclId, wires, wreck).nodes);
  }

  lemma PackingKeepsShape(nodes: Cluster, y: Sync)
    requires Packable(nodes, y)
    ensures ShapeOf(PackedOn(nodes, y)) == ShapeOf(nodes)
  {
    var packed := PackedOn(nodes, y);
    forall n | n in nodes
      ensures SameShape(packed[n], nodes[n])
    {
      if n == y.trainer {
        assert PlacesOf(packed[n].memory) == PlacesOf(nodes[n].memory);
      }
    }
    ShapesEqual(packed, nodes);
  }

  /** After a sync the cluster is prepared for the next one. */
  lemma StillPrepared(nodes: Cluster, y: Sync, after: Cluster, ws: Weights)
    requires Prepared(nodes, y) && ShapeOf(after) == ShapeOf(nodes)
    requires ValidWeights(ws) && |Payload(ws, |ws|)| <= y.bucketSize
    ensures Prepared(after, y.(ws := ws))
  {
    HostsStayPrepared(nodes, after, y.trainer, y.gpu, y.id, y.bucketSize, y.targets);
    hide HostsPrepared, ValidWeights, Payload;
  }

  lemma HostsStayPrepared(nodes: Cluster, after: Cluster, trainer: string, gpu: int, id: string, bucketSize: nat,
                          targets: seq<string>)
    requires HostsPrepared(nodes, trainer, gpu, id, bucketSize, targets) && ShapeOf(after) == ShapeOf(nodes)
    ensures HostsPrepared(after, trainer, gpu, id, bucketSize, targets)
  {
    GoodShape(nodes, after);
    hide AllGood, ShapeOf, Mapped, HasBuffer, Maps;
    BufferStays(nodes, after, trainer, id, bucketSize, gpu);
    forall i | 0 <= i < |targets|
      ensures HasBuffer(after, targets[i], id, bucketSize)
    {
      BufferStays(nodes, after, targets[i], id, bucketSize, gpu);
    }
  }

  lemma BufferStays(nodes: Cluster, after: Cluster, host: string, id: string, bucketSize: nat, gpu: int)
    requires ShapeOf(after) == ShapeOf(nodes) && HasBuffer(nodes, host, id, bucketSize)
    ensures HasBuffer(after, host, id, bucketSize) && Mapped(after, host, id, gpu) == Mapped(nodes, host, id, gpu)
    ensures Maps(nodes, host, id, gpu) ==> Maps(after, host, id, gpu)
  {
    ShapeAt(nodes, after, host);
  }

  // ----- The loop -----

  /** One training step: the list, and how its propagation goes. */
  datatype Round = Round(ws: Weights, ncclId: string, wires: seq<seq<string>>, wreck: Wreck)

  ghost predicate Proceeds(y: Sync, r: Round) {
    && ValidWeights(r.ws) && |Payload(r.ws, |r.ws|)| <= y.bucketSize
    && Carried(Broadcast(y.id, y.targets), r.ncclId, r.wires)
  }

  ghost predicate AllProceed(y: Sync, rounds: seq<Round>) {
    forall k :: 0 <= k < |rounds| ==> Proceeds(y, rounds[k])
  }

  /** The cluster after one round. */
  ghost function Step(nodes: Cluster, y: Sync, r: Round): Cluster
    requires Prepared(nodes, y) && Proceeds(y, r)
  {
    StillPrepared(nodes, y, nodes, r.ws);
    PreparedPackable(nodes, y.(ws := r.ws));
    Call(nodes, y.(ws := r.ws), r.ncclId, r.wires, r.wreck).nodes
  }

  lemma StepShape(nodes: Cluster, y: Sync, r: Round)
    requires Prepared(nodes, y) && Proceeds(y, r)
    ensures ShapeOf(Step(nodes, y, r)) == ShapeOf(nodes) && Prepared(Step(nodes, y, r), y)
  {
    var z := y.(ws := r.ws);
    StillPrepared(nodes, y, nodes, r.ws);
    PreparedPackable(nodes, z);
    PackingKeepsShape(nodes, z);
    CallKeepsShape(PackedOn(nodes, z), y.trainer, Broadcast(y.id, y.targets), r.ncclId, r.wires, r.wreck);
    hide ShapeOf;
    StillPrepared(nodes, y, Step(nodes, y, r), y.ws);
  }

  /** The cluster after all rounds. */
  ghost function Loop(nodes: Cluster, y: Sync, rounds: seq<Round>): Cluster
    requires Prepared(nodes, y) && AllProceed(y, rounds)
    decreases |rounds|, 0
  {
    if rounds == [] then nodes else
    var front, r := rounds[..|rounds| - 1], rounds[|rounds| - 1];
    LoopShape(nodes, y, front);
    Step(Loop(nodes, y, front), y, r)
  }

  lemma FrontProceeds(y: Sync, rounds: seq<Round>)
    requires AllProceed(y, rounds) && rounds != []
    ensures AllProceed(y, rounds[..|rounds| - 1]) && Proceeds(y, rounds[|rounds| - 1])
  {}

  lemma {:induction false} LoopShape(nodes: Cluster, y: Sync, rounds: seq<Round>)
    requires Prepared(nodes, y) && AllProceed(y, rounds)
    ensures ShapeOf(Loop(nodes, y, rounds)) == ShapeOf(nodes) && Prepared(Loop(nodes, y, rounds), y)
    decreases |rounds|, 2
  {
    if rounds != [] {
      FrontProceeds(y, rounds);
      LoopShape(nodes, y, rounds[..|rounds| - 1]);
      LoopShapeStep(nodes, y, rounds);
    }
  }

  lemma {:induction false} LoopShapeStep(nodes: Cluster, y: Sync, rounds: seq<Round>)
    requires Prepared(nodes, y) && AllProceed(y, rounds) && rounds != []
    requires AllProceed(y, rounds[..|rounds| - 1])
    requires var before := Loop(nodes, y, rounds[..|rounds| - 1]);
             ShapeOf(before) == ShapeOf(nodes) && Prepared(before, y)
    ensures ShapeOf(Loop(nodes, y, rounds)) == ShapeOf(nodes) && Prepared(Loop(nodes, y, rounds), y)
    decreases |rounds|, 1
  {
    FrontProceeds(y, rounds);
    hide ShapeOf, Prepared, Step, Proceeds, AllProceed;
    StepShape(Loop(nodes, y, rounds[..|rounds| - 1]), y, rounds[|rounds| - 1]);
  }

  lemma WorksOn(nodes: Cluster, y: Sync, after: Cluster, ws: Weights, w: Worker)
    requires Prepared(nodes, y) && Works(nodes, y, w) && ShapeOf(after) == ShapeOf(nodes)
    ensures HasBuffer(nodes, w.host, y.id, y.bucketSize) && HasBuffer(after, w.host, y.id, y.bucketSize)
    ensures Works(after, y.(ws := ws), w) && WorkerKey(after, y.(ws := ws), w) == WorkerKey(nodes, y, w)
    ensures after[w.host].table == nodes[w.host].table
  {
    WorkerHasBuffer(nodes, y, w);
    BufferStays(nodes, after, w.host, y.id, y.bucketSize, w.gpu);
    ShapeAt(nodes, after, w.host);
  }

  /** What a worker's memory holds after a round: what that sync shows it. */
  lemma StepSeen(nodes: Cluster, y: Sync, r: Round, w: Worker)
    requires Prepared(nodes, y) && Proceeds(y, r) && Works(nodes, y, w)
    ensures Prepared(nodes, y.(ws := r.ws)) && Works(nodes, y.(ws := r.ws), w)
    ensures w.host in nodes && y.id in nodes[w.host].table
    ensures var k := WorkerKey(nodes, y, w);
            && w.host in Step(nodes, y, r) && Tracked(Step(nodes, y, r)[w.host], k)
            && Bytes(Step(nodes, y, r)[w.host], k) == Seen(nodes, y.(ws := r.ws), w)
  {
    StillPrepared(nodes, y, nodes, r.ws);
    WorksOn(nodes, y, nodes, r.ws, w);
    MemoryAfter(nodes, y.(ws := r.ws), r.ncclId, r.wires, r.wreck, w);
  }

  /** The worker's memory is a relocated copy, and not the one that the trainer packs. */
  ghost predicate OnOwnCopy(nodes: Cluster, y: Sync, w: Worker)
    requires Prepared(nodes, y) && Works(nodes, y, w)
  {
    WorkerHasBuffer(nodes, y, w);
    WorkerKey(nodes, y, w) != y.id && !(w.host == y.trainer && WorkerKey(nodes, y, w) == TrainerKey(nodes, y))
  }

  lemma OwnCopyStep(nodes: Cluster, y: Sync, r: Round, w: Worker)
    requires Prepared(nodes, y) && Proceeds(y, r) && Works(nodes, y, w) && OnOwnCopy(nodes, y, w)
    ensures w.host in nodes && y.id in nodes[w.host].table && w.host in Step(nodes, y, r)
    ensures var k := WorkerKey(nodes, y, w);
            && Tracked(nodes[w.host], k) && Tracked(Step(nodes, y, r)[w.host], k)
            && Bytes(Step(nodes, y, r)[w.host], k) == Bytes(nodes[w.host], k)
  {
    StepSeen(nodes, y, r, w);
    UnfedSees(nodes, y.(ws := r.ws), w);
  }

  /** A worker on a copy of its own keeps, through any number of syncs, the content that the copy had before. */
  lemma {:induction false} OwnCopyForever(nodes: Cluster, y: Sync, rounds: seq<Round>, w: Worker)
    requires Prepared(nodes, y) && AllProceed(y, rounds) && Works(nodes, y, w) && OnOwnCopy(nodes, y, w)
    ensures w.host in nodes && y.id in nodes[w.host].table && w.host in Loop(nodes, y, rounds)
    ensures var k := WorkerKey(nodes, y, w);
            && Tracked(nodes[w.host], k) && Tracked(Loop(nodes, y, rounds)[w.host], k)
            && Bytes(Loop(nodes, y, rounds)[w.host], k) == Bytes(nodes[w.host], k)
    decreases |rounds|
  {
    WorkerHasBuffer(nodes, y, w);
    if rounds != [] {
      var front, r := rounds[..|rounds| - 1], rounds[|rounds| - 1];
      OwnCopyForever(nodes, y, front, w);
      LoopShape(nodes, y, front);
      var before := Loop(nodes, y, front);
      WorksOn(nodes, y, before, y.ws, w);
      OwnCopyAfter(nodes, y, before, w);
      OwnCopyStep(before, y, r, w);
    }
  }

  lemma OwnCopyAfter(nodes: Cluster, y: Sync, after: Cluster, w: Worker)
    requires Prepared(nodes, y) && Works(nodes, y, w) && OnOwnCopy(nodes, y, w)
    requires ShapeOf(after) == ShapeOf(nodes) && Prepared(after, y) && Works(after, y, w)
    ensures OnOwnCopy(after, y, w)
  {
    WorksOn(nodes, y, after, y.ws, w);
    BufferStays(nodes, after, y.trainer, y.id, y.bucketSize, y.gpu);
  }

  /** The training loop. After any number of syncs, with a trainer on its host's staged GPU and a last list that fits
      the whole half-floats, a worker on its host's staged GPU reads exactly the dictionary of the last list if and
      only if torch can view its offsets; a worker on a copy reads what the copy held at the start. */
  lemma LoopServes(nodes: Cluster, y: Sync, rounds: seq<Round>, w: Worker)
    requires Prepared(nodes, y) && AllProceed(y, rounds) && rounds != [] && Works(nodes, y, w)
    requires TrainerKey(nodes, y) == y.id
    ensures w.host in nodes && y.id in nodes[w.host].table && w.host in Loop(nodes, y, rounds)
    ensures var t, k, ws := Loop(nodes, y, rounds), WorkerKey(nodes, y, w), rounds[|rounds| - 1].ws;
            && Tracked(nodes[w.host], k) && Tracked(t[w.host], k)
            && (if w.gpu == nodes[w.host].table[y.id].gpu
                then |Payload(ws, |ws|)| <= 2 * (y.bucketSize / 2) ==>
                  (Reads(ws, Bytes(t[w.host], k)) <==> Aligned(Table(ws, |ws|)))
                else Bytes(t[w.host], k) == Bytes(nodes[w.host], k))
  {
    WorkerHasBuffer(nodes, y, w);
    KeyOnStagedGpu(nodes, y, w);
    if w.gpu == nodes[w.host].table[y.id].gpu {
      LastListRead(nodes, y, rounds, w);
    } else {
      OwnCopyForever(nodes, y, rounds, w);
    }
  }

  lemma LastListRead(nodes: Cluster, y: Sync, rounds: seq<Round>, w: Worker)
    requires Prepared(nodes, y) && AllProceed(y, rounds) && rounds != [] && Works(nodes, y, w)
    requires TrainerKey(nodes, y) == y.id && w.host in nodes && y.id in nodes[w.host].table
    requires WorkerKey(nodes, y, w) == y.id
    ensures w.host in Loop(nodes, y, rounds) && Tracked(Loop(nodes, y, rounds)[w.host], y.id)
    ensures var t, ws := Loop(nodes, y, rounds), rounds[|rounds| - 1].ws;
            |Payload(ws, |ws|)| <= 2 * (y.bucketSize / 2) ==>
              (Reads(ws, Bytes(t[w.host], y.id)) <==> Aligned(Table(ws, |ws|)))
  {
    var front, r := rounds[..|rounds| - 1], rounds[|rounds| - 1];
    LoopShape(nodes, y, front);
    var before := Loop(nodes, y, front);
    WorksOn(nodes, y, before, y.ws, w);
    BufferStays(nodes, before, y.trainer, y.id, y.bucketSize, y.gpu);
    LastRound(before, y, r, w);
  }

  lemma LastRound(nodes: Cluster, y: Sync, r: Round, w: Worker)
    requires Prepared(nodes, y) && Proceeds(y, r) && Works(nodes, y, w)
    requires TrainerKey(nodes, y) == y.id && w.host in nodes && y.id in nodes[w.host].table
    requires WorkerKey(nodes, y, w) == y.id
    ensures w.host in Step(nodes, y, r) && Tracked(Step(nodes, y, r)[w.host], y.id)
    ensures |Payload(r.ws, |r.ws|)| <= 2 * (y.bucketSize / 2) ==>
              (Reads(r.ws, Bytes(Step(nodes, y, r)[w.host], y.id)) <==> Aligned(Table(r.ws, |r.ws|)))
  {
    var z := y.(ws := r.ws);
    StepSeen(nodes, y, r, w);
    ReadsExactly(nodes, z, w);
    if |Payload(r.ws, |r.ws|)| <= 2 * (y.bucketSize / 2) {
      KeyOnStagedGpu(nodes, z, w);
      OnStagedGpuIff(nodes, z, w);
    }
  }

  /** The hub of a host that takes part is between transfers again, with the new content. */
  lemma WatchesAgain(nodes: Cluster, y: Sync, r: Round, host: string, hub: N.Hub, f: set<nat>, g: set<nat>)
    requires Prepared(nodes, y) && Proceeds(y, r) && Watches(nodes, host, y.id, hub)
    ensures Prepared(nodes, y.(ws := r.ws)) && Packable(nodes, y.(ws := r.ws))
    ensures host in Step(nodes, y, r) && Tracked(Step(nodes, y, r)[host], y.id)
    ensures Watches(Step(nodes, y, r), host, y.id,
                    N.Transfer(HubPacked(nodes, y.(ws := r.ws), host, hub), Bytes(Step(nodes, y, r)[host], y.id), f, g))
  {
    var z := y.(ws := r.ws);
    StillPrepared(nodes, y, nodes, r.ws);
    PreparedPackable(nodes, z);
    HubAfterPacking(nodes, z, host, hub);
    StepShape(nodes, y, r);
    ShapeAt(nodes, Step(nodes, y, r), host);
    hide Step, HubPacked;
    N.TransferKeeps(HubPacked(nodes, z, host, hub), Bytes(Step(nodes, y, r)[host], y.id), f, g);
  }
}
