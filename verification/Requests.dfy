/** What a propagation does, in terms of its request: which bytes each target gets, and who is told. */
module Requests {
  import opened Text
  import opened Keys
  import opened DriverState
  import opened Handshake
  import opened Propagation
  import opened PropagationProofs
  import opened PropagationTheorems
  import N = Notify

  // ----- Names -----

  /** `base` is the id before the first shard separator, if it has one. */
  predicate IsBase(base: string, id: string) {
    && (id == base || base + "__shard_" <= id)
    && forall k :: 0 <= k < |base| ==> !("__shard_" <= id[k..])
  }

  lemma {:induction false} BaseIff(base: string, id: string)
    requires IsBase(base, id)
    ensures SplitHead(id, SHARD_SEPARATOR) == base
  {
    if base == "" {
      assert id == "" || SHARD_SEPARATOR <= id;
    } else {
      assert base <= id && base[0] == id[0] && id[0..] == id && !(SHARD_SEPARATOR <= id);
      var rest, tail := base[1..], id[1..];
      if id != base {
        assert (base + "__shard_")[1..] == rest + "__shard_";
        assert id[..|base| + 8][1..] == tail[..|rest| + 8];
      }
      forall k | 0 <= k < |rest|
        ensures !("__shard_" <= tail[k..])
      {
        assert tail[k..] == id[k + 1..];
      }
      BaseIff(rest, tail);
    }
  }

  /** The base of every staged id is its buffer's name. */
  lemma StagedIdHasBase(key: Key)
    requires key.Valid() && key.gpu.None?
    ensures IsBase(key.base, Render(key))
  {
    var id := Render(key);
    assert ShardSuffix(key.shard) + "" == ShardSuffix(key.shard);
    assert id == key.base + ShardSuffix(key.shard);
    forall k | 0 <= k < |key.base|
      ensures !("__shard_" <= id[k..])
    {
      assert id[k..][0] == key.base[k] != '_';
    }
  }

  /** The id that an assignment is for: shard i of the source's base buffer, as a node stages it; or with a negative
      index the source's own id. */
  function AssignedId(base: string, r: Request, a: Assignment): string {
    if a.shardIndex >= 0 then EffectiveId(base, a.shardIndex, |r.assignments|) else r.bufferId
  }

  // ----- The handshakes -----

  /** The text that the target of assignment i is sent. */
  function ScatterText(base: string, r: Request, i: nat, ncclId: string): string
    requires i < |r.assignments|
  {
    var a := r.assignments[i];
    AssignedId(base, r, a) + "\n" + Show(|r.assignments| + 1) + "\n" + Show(i + 1) + "\n" + "1" + "\n"
    + (Show(a.offset) + "," + Show(a.length)) + "\n" + ncclId
  }

  /** The text that target i of a broadcast is sent. */
  function BroadcastText(r: Request, i: nat, ncclId: string): string {
    r.bufferId + "\n" + Show(|r.targets| + 1) + "\n" + Show(i + 1) + "\n" + Show(r.mode) + "\n" + "0,0" + "\n" + ncclId
  }

  /** The wire delivers the text, and all of it but the id is held when the first receive loop ends. */
  predicate Arrives(text: string, wire: seq<string>) {
    Fragments(wire) && Flat(wire) == text && |Gather("", wire).0| + 128 >= |text|
  }

  ghost predicate ScatterArrives(base: string, r: Request, ncclId: string, wires: seq<seq<string>>) {
    && |ncclId| == 128 && |wires| == |r.assignments|
    && forall i :: 0 <= i < |wires| ==> Arrives(ScatterText(base, r, i, ncclId), wires[i])
  }

  ghost predicate BroadcastArrives(r: Request, ncclId: string, wires: seq<seq<string>>) {
    && |ncclId| == 128 && |wires| == |r.targets|
    && forall i :: 0 <= i < |wires| ==> Arrives(BroadcastText(r, i, ncclId), wires[i])
  }

  lemma FiveLines(a: string, b: string, c: string, d: string, e: string, id: string)
    ensures Lines([a, b, c, d, e]) + id == a + "\n" + b + "\n" + c + "\n" + d + "\n" + e + "\n" + id
  {
    var f := [a, b, c, d, e];
    assert f[1..] == [b, c, d, e] && f[1..][1..] == [c, d, e] && f[1..][1..][1..] == [d, e];
    assert [d, e][1..] == [e] && [e][1..] == [];
    assert Lines([e]) == e + "\n" + "" == e + "\n";
    assert Lines([d, e]) == d + "\n" + (e + "\n");
    assert Lines([c, d, e]) == c + "\n" + (d + "\n" + (e + "\n"));
    assert Lines([b, c, d, e]) == b + "\n" + (c + "\n" + (d + "\n" + (e + "\n")));
  }

  /** What the source sends for a plan. */
  lemma EncodeIs(m: Message)
    ensures Encode(m) == m.bufferId + "\n" + Show(m.worldSize) + "\n" + Show(m.rank) + "\n" + Show(m.mode) + "\n"
                         + (Show(m.offset) + "," + Show(m.length)) + "\n" + m.ncclId
    ensures |Encode(m)| == |Lines(Fields(m))| + |m.ncclId|
  {
    FiveLines(m.bufferId, Show(m.worldSize), Show(m.rank), Show(m.mode), Show(m.offset) + "," + Show(m.length),
              m.ncclId);
  }

  lemma ShowZeros()
    ensures Show(0) + "," + Show(0) == "0,0" && Show(1) == "1"
  {}

  // ----- The plan of a request -----

  predicate IsScatter(r: Request) {
    r.mode == 1 && r.assignments != []
  }

  ghost predicate PlansScatter(plan: Plan, base: string, r: Request) {
    && plan.bufferId == r.bufferId && plan.mode == 1 && plan.scatter && |plan.legs| == |r.assignments|
    && forall i :: 0 <= i < |r.assignments| ==>
         var a := r.assignments[i]; plan.legs[i] == Leg(a.node, AssignedId(base, r, a), a.offset, a.length)
  }

  lemma ScatterPlan(r: Request, base: string)
    requires IsScatter(r) && IsBase(base, r.bufferId)
    ensures PlansScatter(PlanOf(r), base, r)
  {
    BaseIff(base, r.bufferId);
  }

  ghost predicate PlansBroadcast(plan: Plan, r: Request) {
    && plan.bufferId == r.bufferId && plan.mode == r.mode && !plan.scatter && |plan.legs| == |r.targets|
    && forall i :: 0 <= i < |r.targets| ==> plan.legs[i] == Leg(r.targets[i], r.bufferId, 0, 0)
  }

  lemma BroadcastPlan(r: Request)
    requires !IsScatter(r)
    ensures PlansBroadcast(PlanOf(r), r)
  {}

  lemma ScatterSent(plan: Plan, base: string, r: Request, ncclId: string, i: nat)
    requires PlansScatter(plan, base, r) && i < |plan.legs|
    ensures Encode(MessageTo(plan, i, ncclId)) == ScatterText(base, r, i, ncclId)
    ensures |Encode(MessageTo(plan, i, ncclId))| == |Lines(Fields(MessageTo(plan, i, ncclId)))| + |ncclId|
  {
    EncodeIs(MessageTo(plan, i, ncclId));
    ShowZeros();
    hide Encode, Lines, Fields, Show, AssignedId;
  }

  lemma BroadcastSent(plan: Plan, r: Request, ncclId: string, i: nat)
    requires PlansBroadcast(plan, r) && i < |plan.legs|
    ensures Encode(MessageTo(plan, i, ncclId)) == BroadcastText(r, i, ncclId)
    ensures |Encode(MessageTo(plan, i, ncclId))| == |Lines(Fields(MessageTo(plan, i, ncclId)))| + |ncclId|
  {
    EncodeIs(MessageTo(plan, i, ncclId));
    ShowZeros();
    hide Encode, Lines, Fields, Show;
  }

  /** A text that arrives as sent comes with its header held. */
  lemma ArrivesHeld(plan: Plan, ncclId: string, wires: seq<seq<string>>, i: nat, text: string)
    requires i < |plan.legs| && Wired(plan.legs, wires) && Arrives(text, wires[i]) && |ncclId| == 128
    requires text == Encode(MessageTo(plan, i, ncclId))
    requires |text| == |Lines(Fields(MessageTo(plan, i, ncclId)))| + |ncclId|
    ensures Flat(wires[i]) == Encode(MessageTo(plan, i, ncclId)) && ArrivesWell(plan, ncclId, wires, i)
  {
    hide Encode, Lines, Fields, Flat, Gather, MessageTo, Substitutes;
  }

  lemma ScatterCarried(base: string, r: Request, ncclId: string, wires: seq<seq<string>>)
    requires IsScatter(r) && IsBase(base, r.bufferId) && Free('\n', r.bufferId)
    requires ScatterArrives(base, r, ncclId, wires)
    ensures WiredFor(r, wires) && Carried(PlanOf(r), ncclId, wires)
  {
    ScatterPlan(r, base);
    PlanIsProper(r);
    assert WiredFor(r, wires);
    var plan := PlanOf(r);
    hide Encode, Lines, Fields, MessageTo, ScatterText, Arrives, ArrivesWell, PlanOf, Proper, WiredFor, Flat, IsBase;
    forall i | 0 <= i < |plan.legs|
      ensures Flat(wires[i]) == Encode(MessageTo(plan, i, ncclId)) && ArrivesWell(plan, ncclId, wires, i)
    {
      assert Arrives(ScatterText(base, r, i, ncclId), wires[i]);
      ScatterSent(plan, base, r, ncclId, i);
      ArrivesHeld(plan, ncclId, wires, i, ScatterText(base, r, i, ncclId));
    }
  }

  lemma BroadcastCarried(r: Request, ncclId: string, wires: seq<seq<string>>)
    requires !IsScatter(r) && Free('\n', r.bufferId) && BroadcastArrives(r, ncclId, wires)
    ensures WiredFor(r, wires) && Carried(PlanOf(r), ncclId, wires)
  {
    BroadcastPlan(r);
    PlanIsProper(r);
    assert WiredFor(r, wires);
    var plan := PlanOf(r);
    hide Encode, Lines, Fields, MessageTo, BroadcastText, Arrives, ArrivesWell, PlanOf, Proper, WiredFor, Flat;
    forall i | 0 <= i < |plan.legs|
      ensures Flat(wires[i]) == Encode(MessageTo(plan, i, ncclId)) && ArrivesWell(plan, ncclId, wires, i)
    {
      assert Arrives(BroadcastText(r, i, ncclId), wires[i]);
      BroadcastSent(plan, r, ncclId, i);
      ArrivesHeld(plan, ncclId, wires, i, BroadcastText(r, i, ncclId));
    }
  }

  // ----- What a scatter does -----

  predicate At(nodes: Cluster, node: string, id: string) {
    node in nodes && Tracked(nodes[node], id)
  }

  /** The GPU that holds the buffer. */
  function DeviceOf(nodes: Cluster, node: string, id: string): (string, int)
    requires At(nodes, node, id)
  {
    (node, nodes[node].table[id].gpu)
  }

  /** The source and all assigned shards are tracked, each on a GPU of its own. */
  predicate ScatterStarts(nodes: Cluster, source: string, base: string, r: Request) {
    var a := r.assignments;
    && At(nodes, source, r.bufferId)
    && (forall i :: 0 <= i < |a| ==> At(nodes, a[i].node, AssignedId(base, r, a[i])))
    && (forall i :: 0 <= i < |a| ==>
          DeviceOf(nodes, a[i].node, AssignedId(base, r, a[i])) != DeviceOf(nodes, source, r.bufferId))
    && (forall i, j :: 0 <= i < j < |a| ==>
          DeviceOf(nodes, a[i].node, AssignedId(base, r, a[i]))
          != DeviceOf(nodes, a[j].node, AssignedId(base, r, a[j])))
  }

  /** The first n ranges are not empty, and the next one, if any, is. */
  predicate FirstEmpty(r: Request, n: nat) {
    && n <= |r.assignments| && (forall i :: 0 <= i < n ==> r.assignments[i].length > 0)
    && (n < |r.assignments| ==> r.assignments[n].length == 0)
  }

  /** The end of the whole half-floats of the range. */
  function EndOf(a: Assignment): nat {
    a.offset + 2 * (a.length / 2)
  }

  /** The first n ranges lie inside the source's buffer and inside their own targets'. */
  predicate InsideUpTo(nodes: Cluster, source: string, base: string, r: Request, n: nat)
    requires ScatterStarts(nodes, source, base, r) && n <= |r.assignments|
  {
    forall i :: 0 <= i < n ==>
      var a := r.assignments[i];
      EndOf(a) <= |Bytes(nodes[source], r.bufferId)| && EndOf(a) <= |Bytes(nodes[a.node], AssignedId(base, r, a))|
  }

  /** One of the first n assignments is for this buffer, and its range holds the position. */
  ghost predicate Assigned(base: string, r: Request, n: nat, node: string, id: string, at: nat)
    requires n <= |r.assignments|
  {
    exists i :: 0 <= i < n && r.assignments[i].node == node && AssignedId(base, r, r.assignments[i]) == id
                && r.assignments[i].offset <= at < EndOf(r.assignments[i])
  }

  /** Every byte of every buffer in the cluster is the source's at the same offset if one of the first n assignments is
      for it, and as before otherwise; and nothing but contents has changed. */
  ghost predicate ScatteredBytes(nodes: Cluster, source: string, base: string, r: Request, n: nat, after: Cluster)
    requires At(nodes, source, r.bufferId) && n <= |r.assignments|
  {
    && ShapeOf(after) == ShapeOf(nodes)
    && forall node, id, at: nat :: At(nodes, node, id) && at < |Bytes(nodes[node], id)| ==>
         ByteAfter(nodes, after, Bytes(nodes[source], r.bufferId), Assigned(base, r, n, node, id, at), node, id, at)
  }

  /** Each of the first n targets has the source's bytes of its range. */
  predicate ScatteredRanges(nodes: Cluster, source: string, base: string, r: Request, n: nat, after: Cluster)
    requires At(nodes, source, r.bufferId) && n <= |r.assignments|
  {
    forall i :: 0 <= i < n ==>
      var a := r.assignments[i];
      && EndOf(a) <= |Bytes(nodes[source], r.bufferId)|
      && Holds(after, a.node, AssignedId(base, r, a), a.offset, Bytes(nodes[source], r.bufferId)[a.offset..EndOf(a)])
  }

  /** The signal to the consumers of the first n assigned shards. */
  function ToAssigned(base: string, r: Request, n: nat, signal: N.Signal): seq<Told>
    requires n <= |r.assignments|
  {
    seq(n, i requires 0 <= i < n => Told(r.assignments[i].node, AssignedId(base, r, r.assignments[i]), signal))
  }

  /** PRE_UPDATE everywhere, and READY where the transfer has completed. */
  predicate ScatterTells(source: string, base: string, r: Request, n: nat, signals: seq<Told>)
    requires n <= |r.assignments|
  {
    signals == [Told(source, r.bufferId, N.PreUpdate)] + ToAssigned(base, r, |r.assignments|, N.PreUpdate)
               + (ToAssigned(base, r, n, N.Ready)
                  + if n < |r.assignments| then [] else [Told(source, r.bufferId, N.Ready)])
  }

  lemma {:induction false} LeadingIsN(oks: seq<bool>, n: nat)
    requires n <= |oks| && (forall i :: 0 <= i < n ==> oks[i]) && (n < |oks| ==> !oks[n])
    ensures Leading(oks) == n
  {
    if n > 0 {
      LeadingIsN(oks[1..], n - 1);
    }
  }

  lemma ScatterStartsIff(nodes: Cluster, source: string, base: string, r: Request, plan: Plan)
    requires PlansScatter(plan, base, r)
    ensures Starts(nodes, source, plan) <==> ScatterStarts(nodes, source, base, r)
  {
    forall i | 0 <= i < |plan.legs|
      ensures TargetTracked(nodes, plan, i) <==>
              At(nodes, r.assignments[i].node, AssignedId(base, r, r.assignments[i]))
    {}
    hide AssignedId, Tracked;
  }

  lemma ScatterCompletes(nodes: Cluster, source: string, base: string, r: Request, plan: Plan, n: nat)
    requires PlansScatter(plan, base, r) && Starts(nodes, source, plan) && FirstEmpty(r, n)
    ensures ScatterStarts(nodes, source, base, r) && Completing(nodes, source, plan) == n
    ensures Defined(nodes, source, plan) <==> InsideUpTo(nodes, source, base, r, n)
    ensures LeadingTracked(nodes, plan) == |plan.legs|
  {
    ScatterStartsIff(nodes, source, base, r, plan);
    LeadingIsN(CompatibleFlags(nodes, plan, SourceSize(nodes, source, plan)), n);
    LeadingIsN(TrackedFlags(nodes, plan), |plan.legs|);
    forall i | 0 <= i < n
      ensures Fits(nodes, source, plan, i) <==>
              var a := r.assignments[i];
              && EndOf(a) <= |Bytes(nodes[source], r.bufferId)|
              && EndOf(a) <= |Bytes(nodes[a.node], AssignedId(base, r, a))|
    {}
    hide AssignedId, Leading, DevicesDistinct, DeviceOf;
  }

  lemma AssignedIff(base: string, r: Request, plan: Plan, n: nat, size: nat, node: string, id: string, at: nat)
    requires PlansScatter(plan, base, r) && n <= |r.assignments|
    ensures Hit(plan, n, size, node, id, at) <==> Assigned(base, r, n, node, id, at)
  {
    forall i | 0 <= i < n
      ensures InRange(plan, i, size, node, id, at) <==>
              && r.assignments[i].node == node && AssignedId(base, r, r.assignments[i]) == id
              && r.assignments[i].offset <= at < EndOf(r.assignments[i])
    {}
    hide AssignedId;
    if Hit(plan, n, size, node, id, at) {
      var i :| 0 <= i < n && InRange(plan, i, size, node, id, at);
      assert Assigned(base, r, n, node, id, at);
    }
    if Assigned(base, r, n, node, id, at) {
      var i :| 0 <= i < n && r.assignments[i].node == node && AssignedId(base, r, r.assignments[i]) == id
               && r.assignments[i].offset <= at < EndOf(r.assignments[i]);
      assert InRange(plan, i, size, node, id, at);
    }
  }

  lemma ScatteredFrom(nodes: Cluster, source: string, base: string, r: Request, plan: Plan, n: nat, after: Cluster)
    requires PlansScatter(plan, base, r) && SourceTracked(nodes, source, plan) && n <= |r.assignments|
    requires ExactlyCopied(nodes, source, plan, n, after)
    ensures ScatteredBytes(nodes, source, base, r, n, after)
  {
    var size := SourceSize(nodes, source, plan);
    forall node, id, at: nat | At(nodes, node, id) && at < |Bytes(nodes[node], id)|
      ensures ByteAfter(nodes, after, Bytes(nodes[source], r.bufferId), Assigned(base, r, n, node, id, at),
                        node, id, at)
    {
      assert CopiedAt(nodes, source, plan, n, after, node, id, at);
      AssignedIff(base, r, plan, n, size, node, id, at);
      hide ByteAfter, Hit, Assigned, AssignedId;
    }
  }

  lemma RangesFrom(nodes: Cluster, source: string, base: string, r: Request, plan: Plan, n: nat, after: Cluster)
    requires PlansScatter(plan, base, r) && SourceTracked(nodes, source, plan) && n <= |r.assignments|
    requires forall i :: 0 <= i < n ==> LegDelivered(nodes, source, plan, after, i)
    ensures ScatteredRanges(nodes, source, base, r, n, after)
  {
    forall i | 0 <= i < n
      ensures var a := r.assignments[i];
              && EndOf(a) <= |Bytes(nodes[source], r.bufferId)|
              && Holds(after, a.node, AssignedId(base, r, a), a.offset,
                       Bytes(nodes[source], r.bufferId)[a.offset..EndOf(a)])
    {
      assert LegDelivered(nodes, source, plan, after, i);
    }
    hide AssignedId, Holds;
  }

  lemma TellsFrom(nodes: Cluster, source: string, base: string, r: Request, plan: Plan, n: nat, wreck: Wreck)
    requires PlansScatter(plan, base, r) && Starts(nodes, source, plan) && Defined(nodes, source, plan)
    requires n == Completing(nodes, source, plan) && LeadingTracked(nodes, plan) == |plan.legs|
    ensures n <= |r.assignments| && ScatterTells(source, base, r, n, SignalsOf(nodes, source, plan, wreck))
  {
    assert LegSignals(plan, |plan.legs|, N.PreUpdate) == ToAssigned(base, r, |r.assignments|, N.PreUpdate);
    assert LegSignals(plan, n, N.Ready) == ToAssigned(base, r, n, N.Ready);
    hide AssignedId, LegSignals, ToAssigned, Completing, LeadingTracked, Defined;
  }

  lemma ScatterDefined(nodes: Cluster, source: string, base: string, r: Request, plan: Plan, ncclId: string,
                       wires: seq<seq<string>>, wreck: Wreck, n: nat)
    requires AllSound(nodes) && PlansScatter(plan, base, r) && Carried(plan, ncclId, wires)
    requires Starts(nodes, source, plan) && Defined(nodes, source, plan)
    requires n == Completing(nodes, source, plan) && LeadingTracked(nodes, plan) == |plan.legs|
    requires ExactlyCopied(nodes, source, plan, n, Propagated(nodes, source, plan, ncclId, wires, wreck).nodes)
    ensures var e := Propagated(nodes, source, plan, ncclId, wires, wreck);
            && n <= |r.assignments| && (n < |r.assignments| ==> e.result == Deadlocked)
            && ScatteredBytes(nodes, source, base, r, n, e.nodes) && ScatteredRanges(nodes, source, base, r, n, e.nodes)
            && ScatterTells(source, base, r, n, e.signals)
  {
    var e := Propagated(nodes, source, plan, ncclId, wires, wreck);
    ScatteredFrom(nodes, source, base, r, plan, n, e.nodes);
    LegsDelivered(nodes, source, plan, e.nodes);
    RangesFrom(nodes, source, base, r, plan, n, e.nodes);
    SignalsSent(nodes, source, plan, ncclId, wires, wreck);
    TellsFrom(nodes, source, base, r, plan, n, wreck);
    if n < |plan.legs| {
      HangsOnly(nodes, source, plan, ncclId, wires, wreck);
    }
    hide AllSound, Carried, Starts, Defined, Completing, LeadingTracked, ExactlyCopied, Propagated, ScatteredBytes,
         ScatteredRanges, ScatterTells, SignalsOf;
  }

  /** A scatter whose handshakes arrive is refused, and changes nothing, exactly when a buffer is not tracked or a GPU
      would get two ranks. Otherwise, with the ranges before the first empty one inside both buffers, exactly these
      arrive: each target has the source's bytes of its own range at the same offset, all other bytes stay, and the
      call delivers or hangs as there is no empty range or one. Otherwise the effect is not defined, and the call does
      not deliver. */
  lemma ScatterExactly(nodes: Cluster, source: string, base: string, r: Request, ncclId: string,
                       wires: seq<seq<string>>, wreck: Wreck, n: nat)
    requires AllSound(nodes) && IsScatter(r) && IsBase(base, r.bufferId) && Free('\n', r.bufferId)
    requires ScatterArrives(base, r, ncclId, wires) && FirstEmpty(r, n)
    ensures WiredFor(r, wires)
    ensures var e := CallFor(nodes, source, r, ncclId, wires, wreck);
            if !ScatterStarts(nodes, source, base, r) then e.result == Result.Raised && e.nodes == nodes
            else if InsideUpTo(nodes, source, base, r, n)
            then && e.result == (if n < |r.assignments| then Deadlocked else Delivered)
                 && ScatteredBytes(nodes, source, base, r, n, e.nodes)
                 && ScatteredRanges(nodes, source, base, r, n, e.nodes)
                 && ScatterTells(source, base, r, n, e.signals)
            else e.result != Delivered && e.result != Result.Raised && e.nodes == Wrecked(nodes, wreck)
  {
    var plan := PlanOf(r);
    ScatterPlan(r, base);
    ScatterCarried(base, r, ncclId, wires);
    DeliversExactly(nodes, source, plan, ncclId, wires, wreck);
    ScatterStartsIff(nodes, source, base, r, plan);
    if Starts(nodes, source, plan) {
      ScatterCompletes(nodes, source, base, r, plan, n);
      SendworthyIff(nodes, source, plan);
      if Defined(nodes, source, plan) {
        ScatterDefined(nodes, source, base, r, plan, ncclId, wires, wreck, n);
      }
    }
    hide Starts, Defined, Completing, LeadingTracked, ExactlyCopied, Propagated, ScatterStarts, InsideUpTo,
         PlansScatter, ScatteredBytes, ScatteredRanges, ScatterTells, Carried, AllSound, Wrecked, PlanOf, IsBase,
         Sendworthy, Compatible, ScatterArrives;
  }

  lemma FirstEmptyExists(r: Request) returns (n: nat)
    ensures FirstEmpty(r, n)
  {
    n := 0;
    while n < |r.assignments| && r.assignments[n].length > 0
      invariant n <= |r.assignments| && forall i :: 0 <= i < n ==> r.assignments[i].length > 0
    {
      n := n + 1;
    }
  }

  /** So a scatter whose handshakes arrive delivers exactly when all buffers are tracked on GPUs of their own, and all
      ranges are positive and inside both buffers. */
  lemma ScatterDeliversIff(nodes: Cluster, source: string, base: string, r: Request, ncclId: string,
                           wires: seq<seq<string>>, wreck: Wreck)
    requires AllSound(nodes) && IsScatter(r) && IsBase(base, r.bufferId) && Free('\n', r.bufferId)
    requires ScatterArrives(base, r, ncclId, wires)
    ensures WiredFor(r, wires)
    ensures var e, all := CallFor(nodes, source, r, ncclId, wires, wreck), |r.assignments|;
            && (e.result == Delivered <==> && ScatterStarts(nodes, source, base, r) && FirstEmpty(r, all)
                                           && InsideUpTo(nodes, source, base, r, all))
            && (e.result == Delivered ==> && ScatteredBytes(nodes, source, base, r, all, e.nodes)
                                          && ScatteredRanges(nodes, source, base, r, all, e.nodes)
                                          && ScatterTells(source, base, r, all, e.signals))
  {
    var n := FirstEmptyExists(r);
    FirstEmptyUnique(r, n);
    hide *;
    ScatterExactly(nodes, source, base, r, ncclId, wires, wreck, n);
  }

  lemma FirstEmptyUnique(r: Request, n: nat)
    requires FirstEmpty(r, n)
    ensures n <= |r.assignments| && (FirstEmpty(r, |r.assignments|) <==> n == |r.assignments|)
  {}

  // ----- Tiles -----

  /** The assignments cut `[0, end)` into consecutive ranges. */
  predicate Tiles(a: seq<Assignment>, n: nat, end: nat)
    requires n <= |a|
  {
    if n == 0 then end == 0
    else a[n - 1].offset + a[n - 1].length == end && Tiles(a, n - 1, a[n - 1].offset)
  }

  /** `data[i]` is what target i finds in its range. */
  predicate Pieces(after: Cluster, base: string, r: Request, data: seq<seq<Byte>>) {
    && |data| == |r.assignments|
    && forall i :: 0 <= i < |data| ==>
         var a := r.assignments[i];
         |data[i]| == a.length && Holds(after, a.node, AssignedId(base, r, a), a.offset, data[i])
  }

  function Concat(data: seq<seq<Byte>>, n: nat): seq<Byte>
    requires n <= |data|
  {
    if n == 0 then [] else Concat(data, n - 1) + data[n - 1]
  }

  predicate SliceOf(src: seq<Byte>, a: Assignment, piece: seq<Byte>) {
    a.offset + a.length <= |src| && piece == src[a.offset..a.offset + a.length]
  }

  lemma {:induction false} SlicesConcatenate(src: seq<Byte>, a: seq<Assignment>, data: seq<seq<Byte>>, n: nat, end: nat)
    requires n <= |a| && n <= |data| && Tiles(a, n, end)
    requires forall i :: 0 <= i < n ==> SliceOf(src, a[i], data[i])
    ensures end <= |src| && Concat(data, n) == src[..end]
  {
    if n > 0 {
      assert SliceOf(src, a[n - 1], data[n - 1]);
      SlicesConcatenate(src, a, data, n - 1, a[n - 1].offset);
      assert src[..end] == src[..a[n - 1].offset] + src[a[n - 1].offset..end];
    }
  }

  lemma PieceIsSource(nodes: Cluster, source: string, base: string, r: Request, after: Cluster, data: seq<seq<Byte>>,
                      i: nat)
    requires At(nodes, source, r.bufferId) && ScatteredRanges(nodes, source, base, r, |r.assignments|, after)
    requires Pieces(after, base, r, data) && i < |r.assignments| && r.assignments[i].length % 2 == 0
    ensures SliceOf(Bytes(nodes[source], r.bufferId), r.assignments[i], data[i])
  {
    var a := r.assignments[i];
    assert EndOf(a) == a.offset + a.length;
    assert Holds(after, a.node, AssignedId(base, r, a), a.offset, data[i]);
    hide AssignedId, Tracked;
  }

  /** Even ranges that tile the source arrive as pieces that concatenate, in order, to the source. */
  lemma {:induction false} TilesConcatenate(nodes: Cluster, source: string, base: string, r: Request, after: Cluster,
                                            data: seq<seq<Byte>>, end: nat)
    requires At(nodes, source, r.bufferId) && ScatteredRanges(nodes, source, base, r, |r.assignments|, after)
    requires Pieces(after, base, r, data) && Tiles(r.assignments, |r.assignments|, end)
    requires forall i :: 0 <= i < |r.assignments| ==> r.assignments[i].length % 2 == 0
    ensures end <= |Bytes(nodes[source], r.bufferId)|
    ensures Concat(data, |data|) == Bytes(nodes[source], r.bufferId)[..end]
  {
    hide ScatteredRanges, SliceOf, Tiles, Concat, AssignedId, Holds;
    forall i | 0 <= i < |r.assignments|
      ensures SliceOf(Bytes(nodes[source], r.bufferId), r.assignments[i], data[i])
    {
      PieceIsSource(nodes, source, base, r, after, data, i);
    }
    SlicesConcatenate(Bytes(nodes[source], r.bufferId), r.assignments, data, |data|, end);
  }

  // ----- What a broadcast does -----

  /** The buffer is tracked at the source and at all targets, each time on a GPU of its own. */
  predicate BroadcastStarts(nodes: Cluster, source: string, r: Request) {
    && At(nodes, source, r.bufferId)
    && (forall i :: 0 <= i < |r.targets| ==> At(nodes, r.targets[i], r.bufferId))
    && (forall i :: 0 <= i < |r.targets| ==>
          DeviceOf(nodes, r.targets[i], r.bufferId) != DeviceOf(nodes, source, r.bufferId))
    && (forall i, j :: 0 <= i < j < |r.targets| ==>
          DeviceOf(nodes, r.targets[i], r.bufferId) != DeviceOf(nodes, r.targets[j], r.bufferId))
  }

  function SizeAt(nodes: Cluster, node: string, id: string): nat
    requires At(nodes, node, id)
  {
    nodes[node].table[id].size
  }

  /** All buffers have as many whole half-floats as the source's. */
  predicate EqualSizes(nodes: Cluster, source: string, r: Request)
    requires BroadcastStarts(nodes, source, r)
  {
    forall i :: 0 <= i < |r.targets| ==>
      SizeAt(nodes, r.targets[i], r.bufferId) / 2 == SizeAt(nodes, source, r.bufferId) / 2
  }

  /** The position is among the whole half-floats of the buffer at a target. */
  predicate Targeted(r: Request, size: nat, node: string, id: string, at: nat) {
    node in r.targets && id == r.bufferId && at < 2 * (size / 2)
  }

  /** At the targets the buffer has the source's whole half-floats; every other byte is as before, and nothing but
      contents has changed. */
  ghost predicate BroadcastBytes(nodes: Cluster, source: string, r: Request, after: Cluster)
    requires At(nodes, source, r.bufferId)
  {
    && ShapeOf(after) == ShapeOf(nodes)
    && forall node, id, at: nat :: At(nodes, node, id) && at < |Bytes(nodes[node], id)| ==>
         ByteAfter(nodes, after, Bytes(nodes[source], r.bufferId),
                   Targeted(r, SizeAt(nodes, source, r.bufferId), node, id, at), node, id, at)
  }

  function ToTargets(r: Request, signal: N.Signal): seq<Told> {
    seq(|r.targets|, i requires 0 <= i < |r.targets| => Told(r.targets[i], r.bufferId, signal))
  }

  lemma BroadcastStartsIff(nodes: Cluster, source: string, r: Request, plan: Plan)
    requires PlansBroadcast(plan, r)
    ensures Starts(nodes, source, plan) <==> BroadcastStarts(nodes, source, r)
  {
    forall i | 0 <= i < |plan.legs|
      ensures TargetTracked(nodes, plan, i) <==> At(nodes, r.targets[i], r.bufferId)
    {}
    hide Tracked;
  }

  lemma BroadcastCompletes(nodes: Cluster, source: string, r: Request, plan: Plan)
    requires PlansBroadcast(plan, r) && Starts(nodes, source, plan)
    ensures BroadcastStarts(nodes, source, r)
    ensures Sendworthy(nodes, source, plan) <==> EqualSizes(nodes, source, r)
    ensures Sendworthy(nodes, source, plan) <==> Defined(nodes, source, plan)
    ensures Sendworthy(nodes, source, plan) ==> Completing(nodes, source, plan) == |plan.legs|
    ensures LeadingTracked(nodes, plan) == |plan.legs|
  {
    BroadcastStartsIff(nodes, source, r, plan);
    SendworthyIff(nodes, source, plan);
    LeadingIsN(TrackedFlags(nodes, plan), |plan.legs|);
    forall i | 0 <= i < |plan.legs|
      ensures CompatibleAt(nodes, plan, SourceSize(nodes, source, plan), i) <==>
              SizeAt(nodes, r.targets[i], r.bufferId) / 2 == SizeAt(nodes, source, r.bufferId) / 2
    {}
    hide Leading, DevicesDistinct, DeviceOf, Completing;
  }

  lemma BroadcastHitIff(r: Request, plan: Plan, size: nat, node: string, id: string, at: nat)
    requires PlansBroadcast(plan, r)
    ensures Hit(plan, |plan.legs|, size, node, id, at) <==> Targeted(r, size, node, id, at)
  {
    if Targeted(r, size, node, id, at) {
      var i :| 0 <= i < |r.targets| && r.targets[i] == node;
      assert InRange(plan, i, size, node, id, at);
    }
  }

  lemma BroadcastFrom(nodes: Cluster, source: string, r: Request, plan: Plan, after: Cluster)
    requires PlansBroadcast(plan, r) && SourceTracked(nodes, source, plan)
    requires ExactlyCopied(nodes, source, plan, |plan.legs|, after)
    ensures BroadcastBytes(nodes, source, r, after)
  {
    var size := SizeAt(nodes, source, r.bufferId);
    forall node, id, at: nat | At(nodes, node, id) && at < |Bytes(nodes[node], id)|
      ensures ByteAfter(nodes, after, Bytes(nodes[source], r.bufferId),
                        Targeted(r, size, node, id, at), node, id, at)
    {
      assert CopiedAt(nodes, source, plan, |plan.legs|, after, node, id, at);
      BroadcastHitIff(r, plan, size, node, id, at);
      hide ByteAfter, Hit, Targeted;
    }
  }

  lemma BroadcastSignals(nodes: Cluster, source: string, r: Request, plan: Plan, wreck: Wreck)
    requires PlansBroadcast(plan, r) && Starts(nodes, source, plan) && Defined(nodes, source, plan)
    requires Completing(nodes, source, plan) == LeadingTracked(nodes, plan) == |plan.legs|
    ensures SignalsOf(nodes, source, plan, wreck)
         == [Told(source, r.bufferId, N.PreUpdate)] + ToTargets(r, N.PreUpdate)
            + (ToTargets(r, N.Ready) + [Told(source, r.bufferId, N.Ready)])
  {
    assert LegSignals(plan, |plan.legs|, N.PreUpdate) == ToTargets(r, N.PreUpdate);
    assert LegSignals(plan, |plan.legs|, N.Ready) == ToTargets(r, N.Ready);
    hide LegSignals, ToTargets, Completing, LeadingTracked, Defined;
  }

  /** A request that is no scatter, or has no assignments, sends the whole buffer to all targets: it is refused, and
      changes nothing, exactly when a buffer is not tracked or a GPU would get two ranks; otherwise it delivers
      exactly when all buffers have as many half-floats as the source's, and then the targets have the source's
      half-floats, and all consumers PRE_UPDATE and READY. */
  lemma BroadcastExactly(nodes: Cluster, source: string, r: Request, ncclId: string, wires: seq<seq<string>>,
                         wreck: Wreck)
    requires AllSound(nodes) && !IsScatter(r) && Free('\n', r.bufferId) && BroadcastArrives(r, ncclId, wires)
    ensures WiredFor(r, wires)
    ensures var e := CallFor(nodes, source, r, ncclId, wires, wreck);
            if !BroadcastStarts(nodes, source, r) then e.result == Result.Raised && e.nodes == nodes
            else if EqualSizes(nodes, source, r)
            then && e.result == Delivered && BroadcastBytes(nodes, source, r, e.nodes)
                 && e.signals == [Told(source, r.bufferId, N.PreUpdate)] + ToTargets(r, N.PreUpdate)
                                 + (ToTargets(r, N.Ready) + [Told(source, r.bufferId, N.Ready)])
            else e.result != Delivered && e.result != Result.Raised && e.nodes == Wrecked(nodes, wreck)
  {
    var plan := PlanOf(r);
    BroadcastPlan(r);
    BroadcastCarried(r, ncclId, wires);
    DeliversExactly(nodes, source, plan, ncclId, wires, wreck);
    BroadcastStartsIff(nodes, source, r, plan);
    if Starts(nodes, source, plan) {
      BroadcastCompletes(nodes, source, r, plan);
      if Defined(nodes, source, plan) {
        BroadcastFrom(nodes, source, r, plan, Propagated(nodes, source, plan, ncclId, wires, wreck).nodes);
        SignalsSent(nodes, source, plan, ncclId, wires, wreck);
        BroadcastSignals(nodes, source, r, plan, wreck);
      }
    }
    hide Starts, Defined, Completing, LeadingTracked, ExactlyCopied, Propagated, BroadcastStarts, EqualSizes,
         PlansBroadcast, BroadcastBytes, Carried, AllSound, Wrecked, PlanOf, Sendworthy, ToTargets, SignalsOf,
         BroadcastArrives;
  }
}
