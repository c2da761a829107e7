/** What a propagation does, seen from its caller. */
module PropagationTheorems {
  import opened Arithmetic
  import opened DriverState
  import opened Propagation
  import opened PropagationProofs
  import N = Notify

  ghost predicate AllSound(nodes: Cluster) {
    forall n :: n in nodes ==> Sound(nodes[n])
  }

  // ----- What the caller can check before calling -----

  predicate SourceTracked(nodes: Cluster, source: string, plan: Plan) {
    source in nodes && Tracked(nodes[source], plan.bufferId)
  }

  /** NCCL starts: all buffers are tracked, and no GPU would get two ranks. */
  predicate Starts(nodes: Cluster, source: string, plan: Plan) {
    && SourceTracked(nodes, source, plan)
    && (forall i :: 0 <= i < |plan.legs| ==> TargetTracked(nodes, plan, i))
    && DevicesDistinct(nodes, source, plan)
  }

  function SourceSize(nodes: Cluster, source: string, plan: Plan): nat
    requires SourceTracked(nodes, source, plan)
  {
    nodes[source].table[plan.bufferId].size
  }

  function SourceBytes(nodes: Cluster, source: string, plan: Plan): seq<Byte>
    requires SourceTracked(nodes, source, plan)
  {
    Bytes(nodes[source], plan.bufferId)
  }

  /** The range of assignment i lies inside the source's buffer and inside the target's own buffer. */
  predicate Fits(nodes: Cluster, source: string, plan: Plan, i: nat)
    requires SourceTracked(nodes, source, plan) && i < |plan.legs| && TargetTracked(nodes, plan, i)
  {
    var a := plan.legs[i];
    && a.offset + 2 * (a.length / 2) <= |SourceBytes(nodes, source, plan)|
    && a.offset + 2 * (a.length / 2) <= |Bytes(nodes[a.node], a.id)|
  }

  /** The first n ranges fit. */
  predicate FitUpTo(nodes: Cluster, source: string, plan: Plan, n: nat)
    requires Starts(nodes, source, plan) && n <= |plan.legs|
  {
    plan.scatter ==> forall i :: 0 <= i < n ==> Fits(nodes, source, plan, i)
  }

  /** How many legs complete: all of them, or those before the first whose collective does not match. */
  function Completing(nodes: Cluster, source: string, plan: Plan): (n: nat)
    requires Starts(nodes, source, plan)
    ensures n <= |plan.legs|
  {
    LeadingCompatible(nodes, plan, SourceSize(nodes, source, plan))
  }

  /** The effect of the call is defined: a scatter may hang at an empty range, but nothing else goes wrong. */
  predicate Defined(nodes: Cluster, source: string, plan: Plan)
    requires Starts(nodes, source, plan)
  {
    var n := Completing(nodes, source, plan);
    (plan.scatter || n == |plan.legs|) && FitUpTo(nodes, source, plan, n)
  }

  /** All buffers tracked, one rank per GPU, the collectives compatible, and the ranges inside both buffers. */
  predicate Sendworthy(nodes: Cluster, source: string, plan: Plan) {
    && Starts(nodes, source, plan)
    && Compatible(nodes, plan, SourceSize(nodes, source, plan))
    && FitUpTo(nodes, source, plan, |plan.legs|)
  }

  lemma SendworthyIff(nodes: Cluster, source: string, plan: Plan)
    requires Starts(nodes, source, plan)
    ensures Completing(nodes, source, plan) == |plan.legs| <==> Compatible(nodes, plan, SourceSize(nodes, source, plan))
    ensures Sendworthy(nodes, source, plan) <==>
            Completing(nodes, source, plan) == |plan.legs| && Defined(nodes, source, plan)
  {
    var size := SourceSize(nodes, source, plan);
    var oks := CompatibleFlags(nodes, plan, size);
    LeadingIs(oks);
    forall i | 0 <= i < |plan.legs|
      ensures oks[i] == CompatibleAt(nodes, plan, size, i)
    {}
  }

  lemma SizeFits(s: State, id: string)
    requires Sound(s) && Tracked(s, id)
    ensures s.table[id].size <= |Bytes(s, id)|
  {
    assert Backed(s, s.table[id]);
    RoundUpBounds(s.table[id].size, s.gran);
  }

  lemma BoundsOf(nodes: Cluster, source: string, plan: Plan, ncclId: string, ps: seq<Participant>, i: nat)
    requires AllSound(nodes) && AsExpected(nodes, plan, ncclId, ps) && i < |ps|
    requires SourceTracked(nodes, source, plan) && CompatibleAt(nodes, plan, SourceSize(nodes, source, plan), i)
    ensures var src := SourceBytes(nodes, source, plan);
            && SourceOffset(plan, ps[i]) == TargetOffset(ps[i])
            && (InBounds(nodes, plan, src, ps[i]) <==> (plan.scatter ==> Fits(nodes, source, plan, i)))
  {
    assert TargetTracked(nodes, plan, i) && ps[i] == Expected(nodes, plan, i, ncclId);
    SizeFits(nodes[source], plan.bufferId);
    SizeFits(nodes[plan.legs[i].node], plan.legs[i].id);
  }

  lemma CompletingCompatible(nodes: Cluster, source: string, plan: Plan)
    requires Starts(nodes, source, plan)
    ensures forall i :: 0 <= i < Completing(nodes, source, plan) ==>
                          CompatibleAt(nodes, plan, SourceSize(nodes, source, plan), i)
  {
    var oks := CompatibleFlags(nodes, plan, SourceSize(nodes, source, plan));
    LeadingIs(oks);
    forall i | 0 <= i < Completing(nodes, source, plan)
      ensures CompatibleAt(nodes, plan, SourceSize(nodes, source, plan), i)
    {
      assert oks[i];
    }
  }

  /** The first n legs, all compatible, are in bounds exactly when their ranges fit. */
  lemma InBoundsIff(nodes: Cluster, source: string, plan: Plan, ncclId: string, ps: seq<Participant>)
    requires AllSound(nodes) && Starts(nodes, source, plan) && AsExpected(nodes, plan, ncclId, ps)
    requires |ps| == |plan.legs|
    ensures var n, src := Completing(nodes, source, plan), SourceBytes(nodes, source, plan);
            (forall i :: 0 <= i < n ==> InBounds(nodes, plan, src, ps[i])) <==> FitUpTo(nodes, source, plan, n)
  {
    CompletingCompatible(nodes, source, plan);
    forall i | 0 <= i < Completing(nodes, source, plan)
      ensures InBounds(nodes, plan, SourceBytes(nodes, source, plan), ps[i]) <==>
              (plan.scatter ==> Fits(nodes, source, plan, i))
    {
      BoundsOf(nodes, source, plan, ncclId, ps, i);
    }
  }

  // ----- Which bytes arrive -----

  /** The range of the source that target i receives. */
  function RangeStart(plan: Plan, i: nat): nat
    requires i < |plan.legs|
  {
    if plan.scatter then plan.legs[i].offset else 0
  }

  function RangeLength(plan: Plan, i: nat, sourceSize: nat): nat
    requires i < |plan.legs|
  {
    2 * ((if plan.scatter then plan.legs[i].length else sourceSize) / 2)
  }

  predicate InRange(plan: Plan, i: nat, sourceSize: nat, node: string, id: string, at: nat)
    requires i < |plan.legs|
  {
    && plan.legs[i].node == node && plan.legs[i].id == id
    && RangeStart(plan, i) <= at < RangeStart(plan, i) + RangeLength(plan, i, sourceSize)
  }

  lemma CoversInRange(nodes: Cluster, source: string, plan: Plan, ncclId: string, ps: seq<Participant>, i: nat,
                      node: string, id: string, at: nat)
    requires SourceTracked(nodes, source, plan) && AsExpected(nodes, plan, ncclId, ps) && i < |ps|
    requires CompatibleAt(nodes, plan, SourceSize(nodes, source, plan), i)
    ensures Covers(ps[i], node, id, at) <==> InRange(plan, i, SourceSize(nodes, source, plan), node, id, at)
  {
    assert TargetTracked(nodes, plan, i) && ps[i] == Expected(nodes, plan, i, ncclId);
  }

  /** One of the first n ranges holds the position. */
  ghost predicate Hit(plan: Plan, n: nat, sourceSize: nat, node: string, id: string, at: nat)
    requires n <= |plan.legs|
  {
    exists i :: 0 <= i < n && InRange(plan, i, sourceSize, node, id, at)
  }

  /** The byte at a position is the source's at the same offset when one of the first n ranges, sent to that
      buffer, holds the position, and as before otherwise. */
  ghost predicate CopiedAt(nodes: Cluster, source: string, plan: Plan, n: nat, after: Cluster,
                           node: string, id: string, at: nat)
    requires SourceTracked(nodes, source, plan) && n <= |plan.legs|
  {
    node in nodes && Tracked(nodes[node], id) && at < |Bytes(nodes[node], id)| ==>
      ByteAfter(nodes, after, SourceBytes(nodes, source, plan),
                Hit(plan, n, SourceSize(nodes, source, plan), node, id, at), node, id, at)
  }

  /** Every byte of every buffer in the cluster is copied or unchanged, as one of the first n ranges holds its
      position or not. */
  ghost predicate ExactlyCopied(nodes: Cluster, source: string, plan: Plan, n: nat, after: Cluster)
    requires SourceTracked(nodes, source, plan) && n <= |plan.legs|
  {
    ShapeOf(nodes) == ShapeOf(after) && forall node, id, at: nat ::
      CopiedAt(nodes, source, plan, n, after, node, id, at)
  }

  /** The legs that complete, as their participants. */
  ghost predicate Completes(nodes: Cluster, source: string, plan: Plan, ncclId: string, ps: seq<Participant>) {
    && AllSound(nodes) && Starts(nodes, source, plan) && AsExpected(nodes, plan, ncclId, ps)
    && |ps| == Completing(nodes, source, plan) && FitUpTo(nodes, source, plan, |ps|)
  }

  lemma ReadyFor(nodes: Cluster, source: string, plan: Plan, ncclId: string, ps: seq<Participant>,
                 node: string, id: string, at: nat)
    requires Completes(nodes, source, plan, ncclId, ps)
    requires node in nodes && Tracked(nodes[node], id) && at < |Bytes(nodes[node], id)|
    ensures Placed(nodes, plan, SourceBytes(nodes, source, plan), ps, node, id, at)
  {
    CompletingCompatible(nodes, source, plan);
    forall i | 0 <= i < |ps|
      ensures InBounds(nodes, plan, SourceBytes(nodes, source, plan), ps[i])
              && SourceOffset(plan, ps[i]) == TargetOffset(ps[i])
    {
      BoundsOf(nodes, source, plan, ncclId, ps, i);
    }
    assert Sound(nodes[node]);
  }

  lemma CoveredHit(nodes: Cluster, source: string, plan: Plan, ncclId: string, ps: seq<Participant>,
                   node: string, id: string, at: nat)
    requires Completes(nodes, source, plan, ncclId, ps)
    ensures Covered(ps, |ps|, node, id, at) <==> Hit(plan, |ps|, SourceSize(nodes, source, plan), node, id, at)
  {
    CoveredIff(ps, |ps|, node, id, at);
    CompletingCompatible(nodes, source, plan);
    forall i | 0 <= i < |ps|
      ensures Covers(ps[i], node, id, at) <==> InRange(plan, i, SourceSize(nodes, source, plan), node, id, at)
    {
      CoversInRange(nodes, source, plan, ncclId, ps, i, node, id, at);
    }
  }

  lemma {:induction false} ShapeAfter(nodes: Cluster, plan: Plan, src: seq<Byte>, ps: seq<Participant>, n: nat)
    requires n <= |ps|
    ensures ShapeOf(nodes) == ShapeOf(DepositAll(nodes, plan, src, ps, n))
  {
    if n > 0 {
      ShapeAfter(nodes, plan, src, ps, n - 1);
      DepositKeepsShape(DepositAll(nodes, plan, src, ps, n - 1), plan, src, ps[n - 1]);
    }
  }

  lemma DepositsCopyExactly(nodes: Cluster, source: string, plan: Plan, ncclId: string, ps: seq<Participant>)
    requires Completes(nodes, source, plan, ncclId, ps)
    ensures ExactlyCopied(nodes, source, plan, |ps|,
                          DepositAll(nodes, plan, SourceBytes(nodes, source, plan), ps, |ps|))
  {
    var src := SourceBytes(nodes, source, plan);
    ShapeAfter(nodes, plan, src, ps, |ps|);
    forall node, id, at: nat
      ensures CopiedAt(nodes, source, plan, |ps|, DepositAll(nodes, plan, src, ps, |ps|), node, id, at)
    {
      if node in nodes && Tracked(nodes[node], id) && at < |Bytes(nodes[node], id)| {
        ReadyFor(nodes, source, plan, ncclId, ps, node, id, at);
        DepositsAt(nodes, plan, src, ps, node, id, at);
        CoveredHit(nodes, source, plan, ncclId, ps, node, id, at);
      }
    }
  }

  lemma {:induction false} DepositPrefix(nodes: Cluster, plan: Plan, src: seq<Byte>, ps: seq<Participant>, m: nat,
                                         n: nat)
    requires m <= n <= |ps|
    ensures DepositAll(nodes, plan, src, ps, m) == DepositAll(nodes, plan, src, ps[..n], m)
  {
    if m > 0 {
      DepositPrefix(nodes, plan, src, ps, m - 1, n);
    }
  }

  // ----- The whole call -----

  /** NCCL with the expected participants: what is left of the contents. */
  ghost predicate LeavesAsStated(nodes: Cluster, source: string, plan: Plan, wreck: Wreck, e: Effect) {
    && (e.result == Delivered <==> Sendworthy(nodes, source, plan))
    && (e.result == Result.Raised <==> !Starts(nodes, source, plan))
    && (if !Starts(nodes, source, plan) then e.nodes == nodes
        else if Defined(nodes, source, plan)
        then ExactlyCopied(nodes, source, plan, Completing(nodes, source, plan), e.nodes)
        else e.nodes == Wrecked(nodes, wreck))
  }

  /** A transfer whose effect is defined deposits the legs that complete. */
  lemma TransferredWhen(nodes: Cluster, source: string, plan: Plan, ncclId: string, ps: seq<Participant>, wreck: Wreck)
    requires AllSound(nodes) && Starts(nodes, source, plan) && AsExpected(nodes, plan, ncclId, ps)
    requires |ps| == |plan.legs|
    ensures var n, src := Completing(nodes, source, plan), SourceBytes(nodes, source, plan);
            var e := Transferred(nodes, source, plan, src, ps, n, wreck);
            if Defined(nodes, source, plan)
            then e.result == (if n < |ps| then Deadlocked else Delivered) &&
              e.nodes == DepositAll(nodes, plan, src, ps, n)
            else (e.result == Deadlocked || e.result == OutOfBounds) && e.nodes == Wrecked(nodes, wreck)
  {
    InBoundsIff(nodes, source, plan, ncclId, ps);
    hide Starts, AllSound, AsExpected, InBounds, Completing, DepositAll, Notified, FitUpTo, SourceBytes, Tracked;
  }

  lemma TransfersAsStated(nodes: Cluster, source: string, plan: Plan, ncclId: string, ps: seq<Participant>,
                          wreck: Wreck)
    requires AllSound(nodes) && Starts(nodes, source, plan) && AsExpected(nodes, plan, ncclId, ps)
    requires |ps| == |plan.legs|
    ensures LeavesAsStated(nodes, source, plan, wreck,
                           Transferred(nodes, source, plan, SourceBytes(nodes, source, plan), ps,
                                       Completing(nodes, source, plan), wreck))
  {
    TransferredWhen(nodes, source, plan, ncclId, ps, wreck);
    SendworthyIff(nodes, source, plan);
    if Defined(nodes, source, plan) {
      PrefixCopied(nodes, source, plan, ncclId, ps);
    }
    hide Starts, AllSound, AsExpected, Completing, DepositAll, Transferred, Defined, Sendworthy, ExactlyCopied;
  }

  lemma PrefixCopied(nodes: Cluster, source: string, plan: Plan, ncclId: string, ps: seq<Participant>)
    requires AllSound(nodes) && Starts(nodes, source, plan) && AsExpected(nodes, plan, ncclId, ps)
    requires |ps| == |plan.legs| && Defined(nodes, source, plan)
    ensures var n := Completing(nodes, source, plan);
            ExactlyCopied(nodes, source, plan, n, DepositAll(nodes, plan, SourceBytes(nodes, source, plan), ps, n))
  {
    var n, src := Completing(nodes, source, plan), SourceBytes(nodes, source, plan);
    assert AsExpected(nodes, plan, ncclId, ps[..n]);
    hide Starts, AllSound, AsExpected, ExactlyCopied;
    DepositsCopyExactly(nodes, source, plan, ncclId, ps[..n]);
    DepositPrefix(nodes, plan, src, ps, n, n);
  }

  lemma ConcludesAsStated(nodes: Cluster, source: string, plan: Plan, ncclId: string, ps: seq<Participant>,
                          wreck: Wreck)
    requires AllSound(nodes) && SourceTracked(nodes, source, plan) && AsExpected(nodes, plan, ncclId, ps)
    requires |ps| == |plan.legs|
    ensures LeavesAsStated(nodes, source, plan, wreck, Concluded(nodes, source, plan, ncclId, ps, wreck))
  {
    assert forall i :: 0 <= i < |plan.legs| ==> TargetTracked(nodes, plan, i);
    OneCommunicator(nodes, source, plan, ncclId, ps);
    CollectivesMeet(nodes, plan, ncclId, ps, SourceSize(nodes, source, plan));
    if Starts(nodes, source, plan) {
      hide Transferred, LeavesAsStated;
      TransfersAsStated(nodes, source, plan, ncclId, ps, wreck);
    }
  }

  /** A propagation delivers exactly when the call was worth sending, and raises exactly when a buffer is not
      tracked or a GPU would get two ranks; then nothing changes. A scatter that hangs has delivered the legs
      before the first empty range, and only those. Otherwise NCCL's effect is not defined. */
  lemma DeliversExactly(nodes: Cluster, source: string, plan: Plan, ncclId: string, wires: seq<seq<string>>,
                        wreck: Wreck)
    requires AllSound(nodes) && Carried(plan, ncclId, wires)
    ensures LeavesAsStated(nodes, source, plan, wreck, Propagated(nodes, source, plan, ncclId, wires, wreck))
  {
    JoinersExpected(nodes, plan, ncclId, wires);
    var ps := Joiners(Answers(nodes, plan.legs, wires));
    var e := Propagated(nodes, source, plan, ncclId, wires, wreck);
    if SourceTracked(nodes, source, plan) && |ps| == |plan.legs| {
      ConcludesAsStated(nodes, source, plan, ncclId, ps, wreck);
      hide Concluded, Joiners, Answers, LeavesAsStated, AsExpected;
      SignalsAside(nodes, source, plan, wreck, Concluded(nodes, source, plan, ncclId, ps, wreck), e);
    } else {
      hide LeavesAsStated;
      NothingStarted(nodes, source, plan, wreck, e);
    }
  }

  lemma SignalsAside(nodes: Cluster, source: string, plan: Plan, wreck: Wreck, e: Effect, e': Effect)
    requires LeavesAsStated(nodes, source, plan, wreck, e) && e'.result == e.result && e'.nodes == e.nodes
    ensures LeavesAsStated(nodes, source, plan, wreck, e')
  {}

  lemma NothingStarted(nodes: Cluster, source: string, plan: Plan, wreck: Wreck, e: Effect)
    requires !Starts(nodes, source, plan) && e.result == Result.Raised && e.nodes == nodes
    ensures LeavesAsStated(nodes, source, plan, wreck, e)
  {}

  // ----- The signals of a call -----

  /** The signals to the buffers of the first n legs. */
  function LegSignals(plan: Plan, n: nat, signal: N.Signal): seq<Told>
    requires n <= |plan.legs|
  {
    seq(n, i requires 0 <= i < n => Told(plan.legs[i].node, plan.legs[i].id, signal))
  }

  /** PRE_UPDATE at the source, at every target before the first that refuses, and after NCCL READY exactly where
      the transfer completed. */
  function SignalsOf(nodes: Cluster, source: string, plan: Plan, wreck: Wreck): seq<Told> {
    if !SourceTracked(nodes, source, plan) then [] else
    [Told(source, plan.bufferId, N.PreUpdate)] + LegSignals(plan, LeadingTracked(nodes, plan), N.PreUpdate)
    + (if !Starts(nodes, source, plan) then [] else ReadySignals(nodes, source, plan, wreck))
  }

  function ReadySignals(nodes: Cluster, source: string, plan: Plan, wreck: Wreck): seq<Told>
    requires Starts(nodes, source, plan)
  {
    var n := Completing(nodes, source, plan);
    if !Defined(nodes, source, plan) then wreck.ready
    else LegSignals(plan, n, N.Ready) + if n < |plan.legs| then [] else [Told(source, plan.bufferId, N.Ready)]
  }

  lemma NotifiedIs(nodes: Cluster, plan: Plan, ncclId: string, ps: seq<Participant>, n: nat, signal: N.Signal)
    requires AsExpected(nodes, plan, ncclId, ps) && n <= |ps|
    ensures Notified(ps[..n], signal) == LegSignals(plan, n, signal)
  {
    forall i | 0 <= i < n
      ensures Notified(ps[..n], signal)[i] == LegSignals(plan, n, signal)[i]
    {
      assert TargetTracked(nodes, plan, i) && ps[i] == Expected(nodes, plan, i, ncclId);
    }
  }

  lemma ReadySignalsSent(nodes: Cluster, source: string, plan: Plan, ncclId: string, ps: seq<Participant>, wreck: Wreck)
    requires AllSound(nodes) && SourceTracked(nodes, source, plan) && AsExpected(nodes, plan, ncclId, ps)
    requires |ps| == |plan.legs|
    ensures Concluded(nodes, source, plan, ncclId, ps, wreck).signals
         == if Starts(nodes, source, plan) then ReadySignals(nodes, source, plan, wreck) else []
  {
    assert forall i :: 0 <= i < |plan.legs| ==> TargetTracked(nodes, plan, i);
    OneCommunicator(nodes, source, plan, ncclId, ps);
    CollectivesMeet(nodes, plan, ncclId, ps, SourceSize(nodes, source, plan));
    if Starts(nodes, source, plan) {
      ReadyFromTransfer(nodes, source, plan, ncclId, ps, wreck);
    }
    hide ReadySignals, Transferred, Ranked, OnePerDevice, Completed, AsExpected, AllSound, DevicesDistinct;
  }

  lemma ReadyFromTransfer(nodes: Cluster, source: string, plan: Plan, ncclId: string, ps: seq<Participant>,
                          wreck: Wreck)
    requires AllSound(nodes) && Starts(nodes, source, plan) && AsExpected(nodes, plan, ncclId, ps)
    requires |ps| == |plan.legs|
    ensures Transferred(nodes, source, plan, SourceBytes(nodes, source, plan), ps,
                        Completing(nodes, source, plan), wreck).signals
         == ReadySignals(nodes, source, plan, wreck)
  {
    InBoundsIff(nodes, source, plan, ncclId, ps);
    NotifiedIs(nodes, plan, ncclId, ps, Completing(nodes, source, plan), N.Ready);
    hide Starts, AllSound, AsExpected, InBounds, Completing, DepositAll, Notified, FitUpTo, SourceBytes, Tracked,
         LegSignals;
  }

  /** The signals of a call. */
  lemma SignalsSent(nodes: Cluster, source: string, plan: Plan, ncclId: string, wires: seq<seq<string>>, wreck: Wreck)
    requires AllSound(nodes) && Carried(plan, ncclId, wires)
    ensures Propagated(nodes, source, plan, ncclId, wires, wreck).signals == SignalsOf(nodes, source, plan, wreck)
  {
    JoinersExpected(nodes, plan, ncclId, wires);
    var ps := Joiners(Answers(nodes, plan.legs, wires));
    NotifiedIs(nodes, plan, ncclId, ps, |ps|, N.PreUpdate);
    assert ps[..|ps|] == ps;
    if SourceTracked(nodes, source, plan) && |ps| == |plan.legs| {
      hide Concluded, Joiners, Answers;
      ReadySignalsSent(nodes, source, plan, ncclId, ps, wreck);
    }
  }

  lemma SameBufferSameDevice(nodes: Cluster, source: string, plan: Plan, i: nat, j: nat)
    requires Starts(nodes, source, plan) && i < |plan.legs| && j < |plan.legs|
    ensures (plan.legs[i].node, plan.legs[i].id) == (plan.legs[j].node, plan.legs[j].id) <==> i == j
    ensures (plan.legs[i].node, plan.legs[i].id) != (source, plan.bufferId)
  {
    assert TargetTracked(nodes, plan, i) && TargetTracked(nodes, plan, j);
  }

  /** Where the effect is defined, the consumers of target i are told READY exactly when its leg completed. */
  lemma ReadyIffCompleted(nodes: Cluster, source: string, plan: Plan, wreck: Wreck, i: nat)
    requires Starts(nodes, source, plan) && Defined(nodes, source, plan) && i < |plan.legs|
    ensures Told(plan.legs[i].node, plan.legs[i].id, N.Ready) in SignalsOf(nodes, source, plan, wreck) <==>
            i < Completing(nodes, source, plan)
  {
    var n, told := Completing(nodes, source, plan), Told(plan.legs[i].node, plan.legs[i].id, N.Ready);
    SameBufferSameDevice(nodes, source, plan, i, i);
    if i < n {
      assert LegSignals(plan, n, N.Ready)[i] == told;
    }
    if told in LegSignals(plan, n, N.Ready) {
      var j :| 0 <= j < n && LegSignals(plan, n, N.Ready)[j] == told;
      SameBufferSameDevice(nodes, source, plan, i, j);
    }
  }

  // ----- What a target holds -----

  /** The end of the range of leg i. */
  function RangeEnd(nodes: Cluster, source: string, plan: Plan, i: nat): nat
    requires SourceTracked(nodes, source, plan) && i < |plan.legs|
  {
    RangeStart(plan, i) + RangeLength(plan, i, SourceSize(nodes, source, plan))
  }

  predicate RangeInside(nodes: Cluster, source: string, plan: Plan, i: nat)
    requires SourceTracked(nodes, source, plan) && i < |plan.legs|
  {
    && TargetTracked(nodes, plan, i)
    && RangeEnd(nodes, source, plan, i) <= |SourceBytes(nodes, source, plan)|
    && RangeEnd(nodes, source, plan, i) <= |Bytes(nodes[plan.legs[i].node], plan.legs[i].id)|
  }

  lemma RangeInBounds(nodes: Cluster, source: string, plan: Plan, i: nat)
    requires AllSound(nodes) && Proper(plan) && Starts(nodes, source, plan) && Defined(nodes, source, plan)
    requires i < Completing(nodes, source, plan)
    ensures RangeInside(nodes, source, plan, i)
  {
    CompletingCompatible(nodes, source, plan);
    assert TargetTracked(nodes, plan, i) && CompatibleAt(nodes, plan, SourceSize(nodes, source, plan), i);
    assert plan.scatter ==> Fits(nodes, source, plan, i);
    hide Completing, Defined, DevicesDistinct;
    SizeFits(nodes[source], plan.bufferId);
    SizeFits(nodes[plan.legs[i].node], plan.legs[i].id);
    hide Sound;
  }

  lemma SlicesEqual(a: seq<Byte>, b: seq<Byte>, lo: nat, hi: nat)
    requires lo <= hi <= |a| && hi <= |b| && forall at :: lo <= at < hi ==> a[at] == b[at]
    ensures a[lo..hi] == b[lo..hi]
  {}

  /** Where every position of a range is hit, the buffer holds the source's bytes. */
  lemma HitRange(nodes: Cluster, source: string, plan: Plan, n: nat, after: Cluster, node: string, id: string,
                 lo: nat, hi: nat)
    requires SourceTracked(nodes, source, plan) && n <= |plan.legs| && ShapeOf(nodes) == ShapeOf(after)
    requires node in nodes && Tracked(nodes[node], id)
    requires lo <= hi <= |SourceBytes(nodes, source, plan)| && hi <= |Bytes(nodes[node], id)|
    requires forall at: nat :: lo <= at < hi ==> CopiedAt(nodes, source, plan, n, after, node, id, at)
    requires forall at: nat :: lo <= at < hi ==> Hit(plan, n, SourceSize(nodes, source, plan), node, id, at)
    ensures Holds(after, node, id, lo, SourceBytes(nodes, source, plan)[lo..hi])
  {
    ShapeAt(nodes, after, node);
    forall at: nat | lo <= at < hi
      ensures Bytes(after[node], id)[at] == SourceBytes(nodes, source, plan)[at]
    {
      assert CopiedAt(nodes, source, plan, n, after, node, id, at);
    }
    SlicesEqual(Bytes(after[node], id), SourceBytes(nodes, source, plan), lo, hi);
  }

  /** The buffer at `node` contains `data` from position `at` on. */
  predicate Holds(nodes: Cluster, node: string, id: string, at: nat, data: seq<Byte>) {
    && node in nodes && Tracked(nodes[node], id) && at + |data| <= |Bytes(nodes[node], id)|
    && Bytes(nodes[node], id)[at..at + |data|] == data
  }

  /** Target i holds the source's bytes of its range. */
  predicate LegDelivered(nodes: Cluster, source: string, plan: Plan, after: Cluster, i: nat)
    requires SourceTracked(nodes, source, plan) && i < |plan.legs|
  {
    var src, lo, hi := SourceBytes(nodes, source, plan), RangeStart(plan, i), RangeEnd(nodes, source, plan, i);
    hi <= |src| && Holds(after, plan.legs[i].node, plan.legs[i].id, lo, src[lo..hi])
  }

  lemma RangeReceived(nodes: Cluster, source: string, plan: Plan, n: nat, after: Cluster, i: nat)
    requires SourceTracked(nodes, source, plan) && i < n <= |plan.legs|
    requires RangeInside(nodes, source, plan, i) && ExactlyCopied(nodes, source, plan, n, after)
    ensures LegDelivered(nodes, source, plan, after, i)
  {
    RangeIsHit(plan, n, i, SourceSize(nodes, source, plan));
    HitRange(nodes, source, plan, n, after, plan.legs[i].node, plan.legs[i].id,
             RangeStart(plan, i), RangeEnd(nodes, source, plan, i));
  }

  /** After a propagation every target whose leg completed holds the source's bytes of its range. */
  lemma LegsDelivered(nodes: Cluster, source: string, plan: Plan, after: Cluster)
    requires AllSound(nodes) && Proper(plan) && Starts(nodes, source, plan) && Defined(nodes, source, plan)
    requires ExactlyCopied(nodes, source, plan, Completing(nodes, source, plan), after)
    ensures forall i :: 0 <= i < Completing(nodes, source, plan) ==> LegDelivered(nodes, source, plan, after, i)
  {
    forall i | 0 <= i < Completing(nodes, source, plan)
      ensures LegDelivered(nodes, source, plan, after, i)
    {
      RangeInBounds(nodes, source, plan, i);
      RangeReceived(nodes, source, plan, Completing(nodes, source, plan), after, i);
    }
  }

  lemma RangeIsHit(plan: Plan, n: nat, i: nat, size: nat)
    requires i < n <= |plan.legs|
    ensures forall at: nat :: RangeStart(plan, i) <= at < RangeStart(plan, i) + RangeLength(plan, i, size) ==>
                                Hit(plan, n, size, plan.legs[i].node, plan.legs[i].id, at)
  {
    forall at: nat | RangeStart(plan, i) <= at < RangeStart(plan, i) + RangeLength(plan, i, size)
      ensures Hit(plan, n, size, plan.legs[i].node, plan.legs[i].id, at)
    {
      assert InRange(plan, i, size, plan.legs[i].node, plan.legs[i].id, at);
    }
  }

  /** A target whose consumers are told READY holds its range of the source. */
  lemma ReadyMeansDelivered(nodes: Cluster, source: string, plan: Plan, ncclId: string, wires: seq<seq<string>>,
                            wreck: Wreck, i: nat)
    requires AllSound(nodes) && Carried(plan, ncclId, wires) && i < |plan.legs|
    requires Starts(nodes, source, plan) && Defined(nodes, source, plan)
    requires var e := Propagated(nodes, source, plan, ncclId, wires, wreck);
             Told(plan.legs[i].node, plan.legs[i].id, N.Ready) in e.signals
    ensures LegDelivered(nodes, source, plan, Propagated(nodes, source, plan, ncclId, wires, wreck).nodes, i)
  {
    DeliversExactly(nodes, source, plan, ncclId, wires, wreck);
    SignalsSent(nodes, source, plan, ncclId, wires, wreck);
    ReadyIffCompleted(nodes, source, plan, wreck, i);
    LegsDelivered(nodes, source, plan, Propagated(nodes, source, plan, ncclId, wires, wreck).nodes);
  }

  /** A scatter that hangs has overwritten the targets before the first empty range: they hold their ranges, and
      their consumers are told READY, although the call does not deliver. */
  lemma StuckScatterOverwrites(nodes: Cluster, source: string, plan: Plan, ncclId: string, wires: seq<seq<string>>,
                               wreck: Wreck, i: nat)
    requires AllSound(nodes) && Carried(plan, ncclId, wires) && plan.scatter
    requires Starts(nodes, source, plan) && i < Completing(nodes, source, plan) < |plan.legs|
    requires FitUpTo(nodes, source, plan, Completing(nodes, source, plan))
    ensures var e := Propagated(nodes, source, plan, ncclId, wires, wreck);
            && e.result == Deadlocked && LegDelivered(nodes, source, plan, e.nodes, i)
            && Told(plan.legs[i].node, plan.legs[i].id, N.Ready) in e.signals
            && Told(source, plan.bufferId, N.Ready) !in e.signals
  {
    var e := Propagated(nodes, source, plan, ncclId, wires, wreck);
    DeliversExactly(nodes, source, plan, ncclId, wires, wreck);
    SignalsSent(nodes, source, plan, ncclId, wires, wreck);
    SendworthyIff(nodes, source, plan);
    HangsOnly(nodes, source, plan, ncclId, wires, wreck);
    ReadyIffCompleted(nodes, source, plan, wreck, i);
    LegsDelivered(nodes, source, plan, e.nodes);
    SourceNotReady(nodes, source, plan, wreck);
  }

  lemma HangsOnly(nodes: Cluster, source: string, plan: Plan, ncclId: string, wires: seq<seq<string>>, wreck: Wreck)
    requires AllSound(nodes) && Carried(plan, ncclId, wires) && Starts(nodes, source, plan)
    requires Defined(nodes, source, plan) && Completing(nodes, source, plan) < |plan.legs|
    ensures Propagated(nodes, source, plan, ncclId, wires, wreck).result == Deadlocked
  {
    JoinersExpected(nodes, plan, ncclId, wires);
    var ps := Joiners(Answers(nodes, plan.legs, wires));
    OneCommunicator(nodes, source, plan, ncclId, ps);
    CollectivesMeet(nodes, plan, ncclId, ps, SourceSize(nodes, source, plan));
    TransferredWhen(nodes, source, plan, ncclId, ps, wreck);
    hide Joiners, Answers, Ranked, OnePerDevice, Completed, AsExpected, Carried, DevicesDistinct, Transferred, Defined;
  }

  lemma SourceNotReady(nodes: Cluster, source: string, plan: Plan, wreck: Wreck)
    requires Starts(nodes, source, plan) && Defined(nodes, source, plan)
    requires Completing(nodes, source, plan) < |plan.legs|
    ensures Told(source, plan.bufferId, N.Ready) !in SignalsOf(nodes, source, plan, wreck)
  {
    var n, told := Completing(nodes, source, plan), Told(source, plan.bufferId, N.Ready);
    forall j | 0 <= j < n
      ensures LegSignals(plan, n, N.Ready)[j] != told
    {
      SameBufferSameDevice(nodes, source, plan, j, j);
    }
  }
}
