/** The parties of a propagation agree on the communicator and on every collective, and the bytes
    that arrive are exactly the source's bytes of each range. */
module PropagationProofs {
  import opened Text
  import opened Keys
  import opened DriverState
  import opened Handshake
  import opened HandshakeRoundTrip
  import opened Propagation

  /** A plan as requests lead to them: ranges only in scatter mode, ids without a newline. */
  predicate Proper(plan: Plan) {
    && (plan.scatter ==> plan.mode == SCATTER)
    && forall i :: 0 <= i < |plan.legs| ==>
         Free('\n', plan.legs[i].id) && (!plan.scatter ==> plan.legs[i].offset == 0 && plan.legs[i].length == 0)
  }

  lemma PlanIsProper(r: Request)
    requires Free('\n', r.bufferId)
    ensures Proper(PlanOf(r))
  {
    SplitHeadFree(r.bufferId, SHARD_SEPARATOR, '\n');
    if Scatters(r) {
      forall i | 0 <= i < |r.assignments|
        ensures Free('\n', PlanOf(r).legs[i].id)
      {
        ShowIsFree(r.assignments[i].shardIndex, '\n');
      }
    }
  }

  /** Each connection delivers its message, in whatever fragments. */
  ghost predicate Transmitted(plan: Plan, ncclId: string, wires: seq<seq<string>>) {
    && |ncclId| == NCCL_ID_LENGTH && Proper(plan) && Wired(plan.legs, wires)
    && forall i :: 0 <= i < |plan.legs| ==> Flat(wires[i]) == Encode(MessageTo(plan, i, ncclId))
  }

  /** The header is held when the first receive loop ends. */
  predicate HeaderHeld(plan: Plan, ncclId: string, wires: seq<seq<string>>, i: nat)
    requires i < |plan.legs| && Wired(plan.legs, wires)
  {
    |Gather("", wires[i]).0| >= |Lines(Fields(MessageTo(plan, i, ncclId)))|
  }

  /** A cut header that makes the same participant all the same: the rank is held whole, the id repeats the text
      behind the last newline held, and there is no range to lose. */
  predicate Substitutes(m: Message, h: nat)
    requires h < |Lines(Fields(m))| && |m.ncclId| == NCCL_ID_LENGTH
  {
    && Parsable(m) < h && (CutLine(m, h) == 2 ==> CutTail(m, h) == Show(m.rank)) && m.ncclId == CutId(m, h)
    && !(m.mode == SCATTER && m.length > 0)
  }

  predicate ArrivesWell(plan: Plan, ncclId: string, wires: seq<seq<string>>, i: nat)
    requires i < |plan.legs| && Wired(plan.legs, wires) && |ncclId| == NCCL_ID_LENGTH
  {
    HeaderHeld(plan, ncclId, wires, i) || Substitutes(MessageTo(plan, i, ncclId), |Gather("", wires[i]).0|)
  }

  /** Each connection delivers its message, and it arrives well. */
  ghost predicate Carried(plan: Plan, ncclId: string, wires: seq<seq<string>>) {
    && Transmitted(plan, ncclId, wires)
    && forall i :: 0 <= i < |plan.legs| ==> ArrivesWell(plan, ncclId, wires, i)
  }

  predicate TargetTracked(nodes: Cluster, plan: Plan, i: nat)
    requires i < |plan.legs|
  {
    plan.legs[i].node in nodes && Tracked(nodes[plan.legs[i].node], plan.legs[i].id)
  }

  function TargetSize(nodes: Cluster, plan: Plan, i: nat): nat
    requires i < |plan.legs| && TargetTracked(nodes, plan, i)
  {
    nodes[plan.legs[i].node].table[plan.legs[i].id].size
  }

  function TargetGpu(nodes: Cluster, plan: Plan, i: nat): int
    requires i < |plan.legs| && TargetTracked(nodes, plan, i)
  {
    nodes[plan.legs[i].node].table[plan.legs[i].id].gpu
  }

  /** The participant that connection i is meant to bring in. */
  function Expected(nodes: Cluster, plan: Plan, i: nat, ncclId: string): Participant
    requires i < |plan.legs| && TargetTracked(nodes, plan, i)
  {
    Participant(plan.legs[i].node, plan.legs[i].id, TargetGpu(nodes, plan, i), |plan.legs| + 1, i + 1, ncclId,
                TargetOp(MessageTo(plan, i, ncclId), TargetSize(nodes, plan, i)))
  }

  lemma {:induction false} SplitHeadFree(s: string, sep: string, c: char)
    requires sep != "" && Free(c, s)
    ensures Free(c, SplitHead(s, sep))
  {
    if s != "" && !(sep <= s) {
      assert Free(c, s[1..]);
      SplitHeadFree(s[1..], sep, c);
    }
  }

  /** The message that target i makes of its connection, if it can parse it. */
  function Heard(plan: Plan, ncclId: string, wires: seq<seq<string>>, i: nat): Option<Message>
    requires i < |plan.legs| && Wired(plan.legs, wires) && |ncclId| == NCCL_ID_LENGTH
  {
    var m, h := MessageTo(plan, i, ncclId), |Gather("", wires[i]).0|;
    if HeaderHeld(plan, ncclId, wires, i) then Some(m) else if h <= Parsable(m) then None else Some(CutMessage(m, h))
  }

  lemma UnderstandsHeard(plan: Plan, ncclId: string, wires: seq<seq<string>>, i: nat)
    requires Transmitted(plan, ncclId, wires) && i < |plan.legs|
    ensures Understand(wires[i]) == match Heard(plan, ncclId, wires, i)
                                    case None => Outcome.Raised
                                    case Some(m) => Received(m)
    ensures Heard(plan, ncclId, wires, i).Some? ==> Heard(plan, ncclId, wires, i).value.bufferId == plan.legs[i].id
  {
    var m := MessageTo(plan, i, ncclId);
    assert Sendable(m);
    if HeaderHeld(plan, ncclId, wires, i) {
      RoundTrip(m, wires[i]);
    } else {
      CutHeader(m, wires[i]);
    }
  }

  /** The participant that connection i brings in. */
  function Brings(nodes: Cluster, plan: Plan, ncclId: string, wires: seq<seq<string>>, i: nat): Option<Participant>
    requires i < |plan.legs| && Wired(plan.legs, wires) && |ncclId| == NCCL_ID_LENGTH
  {
    var m := Heard(plan, ncclId, wires, i);
    if m.None? || plan.legs[i].node !in nodes || !Tracked(nodes[plan.legs[i].node], m.value.bufferId) then None
    else Some(Joining(nodes, plan.legs[i].node, m.value))
  }

  lemma AcceptBrings(nodes: Cluster, plan: Plan, ncclId: string, wires: seq<seq<string>>, i: nat)
    requires Transmitted(plan, ncclId, wires) && i < |plan.legs|
    ensures Accept(nodes, plan.legs[i].node, wires[i]) == Brings(nodes, plan, ncclId, wires, i)
  {
    UnderstandsHeard(plan, ncclId, wires, i);
    hide Understand, Heard;
  }

  lemma AcceptExpected(nodes: Cluster, plan: Plan, ncclId: string, wires: seq<seq<string>>, i: nat)
    requires Carried(plan, ncclId, wires) && i < |plan.legs|
    ensures Accept(nodes, plan.legs[i].node, wires[i])
         == if TargetTracked(nodes, plan, i) then Some(Expected(nodes, plan, i, ncclId)) else None
  {
    AcceptBrings(nodes, plan, ncclId, wires, i);
    UnderstandsHeard(plan, ncclId, wires, i);
    HeardWell(plan, ncclId, wires, i);
    hide Accept, Understand, Heard, Carried, Lines, Gather, Encode, MessageTo;
  }

  /** What arrives well differs from what was sent in nothing that makes the participant. */
  lemma HeardWell(plan: Plan, ncclId: string, wires: seq<seq<string>>, i: nat)
    requires Transmitted(plan, ncclId, wires) && i < |plan.legs| && ArrivesWell(plan, ncclId, wires, i)
    ensures Heard(plan, ncclId, wires, i).Some?
    ensures SameParticipant(Heard(plan, ncclId, wires, i).value, MessageTo(plan, i, ncclId))
  {
    if !HeaderHeld(plan, ncclId, wires, i) {
      SubstituteIs(MessageTo(plan, i, ncclId), |Gather("", wires[i]).0|);
    }
  }

  ghost predicate SameParticipant(a: Message, b: Message) {
    && a.bufferId == b.bufferId && a.worldSize == b.worldSize && a.rank == b.rank && a.ncclId == b.ncclId
    && forall size: nat :: TargetOp(a, size) == TargetOp(b, size)
  }

  lemma SubstituteIs(m: Message, h: nat)
    requires h < |Lines(Fields(m))| && Sendable(m) && Substitutes(m, h)
    ensures SameParticipant(CutMessage(m, h), m)
  {
    ParseShow(m.rank);
  }

  function Answer(nodes: Cluster, plan: Plan, i: nat, ncclId: string): Option<Participant>
    requires i < |plan.legs|
  {
    if TargetTracked(nodes, plan, i) then Some(Expected(nodes, plan, i, ncclId)) else None
  }

  lemma AnswersExpected(nodes: Cluster, plan: Plan, ncclId: string, wires: seq<seq<string>>)
    requires Carried(plan, ncclId, wires)
    ensures var answers := Answers(nodes, plan.legs, wires);
            forall i :: 0 <= i < |plan.legs| ==> answers[i] == Answer(nodes, plan, i, ncclId)
  {
    forall i | 0 <= i < |plan.legs|
      ensures Answers(nodes, plan.legs, wires)[i] == Answer(nodes, plan, i, ncclId)
    {
      AcceptExpected(nodes, plan, ncclId, wires, i);
    }
  }

  function TrackedFlags(nodes: Cluster, plan: Plan): seq<bool> {
    seq(|plan.legs|, i requires 0 <= i < |plan.legs| => TargetTracked(nodes, plan, i))
  }

  /** The targets track their buffers, up to the first that does not. */
  function LeadingTracked(nodes: Cluster, plan: Plan): (n: nat)
    ensures n <= |plan.legs|
  {
    Leading(TrackedFlags(nodes, plan))
  }

  lemma {:induction false} LeadingIs(oks: seq<bool>)
    ensures forall i :: 0 <= i < Leading(oks) ==> oks[i]
    ensures Leading(oks) < |oks| ==> !oks[Leading(oks)]
  {
    if oks != [] && oks[0] {
      LeadingIs(oks[1..]);
      assert forall i :: 1 <= i < |oks| ==> oks[i] == oks[1..][i - 1];
    }
  }

  lemma {:induction false} JoinersAre(answers: seq<Option<Participant>>, oks: seq<bool>)
    requires |oks| == |answers| && forall i :: 0 <= i < |oks| ==> oks[i] == answers[i].Some?
    ensures |Joiners(answers)| == Leading(oks)
    ensures forall i :: 0 <= i < Leading(oks) ==> answers[i] == Some(Joiners(answers)[i])
  {
    if answers != [] && answers[0].Some? {
      JoinersAre(answers[1..], oks[1..]);
      assert forall i :: 1 <= i < |answers| ==> answers[i] == answers[1..][i - 1];
    }
  }

  /** The participants are the expected ones, in rank order. */
  ghost predicate AsExpected(nodes: Cluster, plan: Plan, ncclId: string, ps: seq<Participant>) {
    && Proper(plan) && |ps| <= |plan.legs|
    && forall i :: 0 <= i < |ps| ==> TargetTracked(nodes, plan, i) && ps[i] == Expected(nodes, plan, i, ncclId)
  }

  /** Those who join, and tell their consumers PRE_UPDATE, are the targets before the first that does not track
      its buffer; NCCL starts exactly when there is none such. */
  lemma JoinersExpected(nodes: Cluster, plan: Plan, ncclId: string, wires: seq<seq<string>>)
    requires Carried(plan, ncclId, wires)
    ensures var ps := Joiners(Answers(nodes, plan.legs, wires));
            && AsExpected(nodes, plan, ncclId, ps) && |ps| == LeadingTracked(nodes, plan)
            && (|ps| == |plan.legs| <==> forall i :: 0 <= i < |plan.legs| ==> TargetTracked(nodes, plan, i))
  {
    AnswersExpected(nodes, plan, ncclId, wires);
    JoinedFrom(nodes, plan, ncclId, Answers(nodes, plan.legs, wires));
  }

  lemma JoinedFrom(nodes: Cluster, plan: Plan, ncclId: string, answers: seq<Option<Participant>>)
    requires Proper(plan) && |answers| == |plan.legs|
    requires forall i :: 0 <= i < |plan.legs| ==> answers[i] == Answer(nodes, plan, i, ncclId)
    ensures var ps := Joiners(answers);
            && AsExpected(nodes, plan, ncclId, ps) && |ps| == LeadingTracked(nodes, plan)
            && (|ps| == |plan.legs| <==> forall i :: 0 <= i < |plan.legs| ==> TargetTracked(nodes, plan, i))
  {
    var oks := TrackedFlags(nodes, plan);
    hide Joiners, Leading;
    JoinersAre(answers, oks);
    LeadingIs(oks);
    forall i | 0 <= i < |Joiners(answers)|
      ensures TargetTracked(nodes, plan, i) && Joiners(answers)[i] == Expected(nodes, plan, i, ncclId)
    {
      assert answers[i] == Answer(nodes, plan, i, ncclId);
    }
    if |Joiners(answers)| < |plan.legs| {
      assert !oks[|Joiners(answers)|];
    }
  }

  /** The source's GPU and the targets' are pairwise different. */
  predicate DevicesDistinct(nodes: Cluster, source: string, plan: Plan)
    requires source in nodes && plan.bufferId in nodes[source].table
    requires forall i :: 0 <= i < |plan.legs| ==> TargetTracked(nodes, plan, i)
  {
    && (forall i :: 0 <= i < |plan.legs| ==>
          (plan.legs[i].node, TargetGpu(nodes, plan, i)) != (source, nodes[source].table[plan.bufferId].gpu))
    && (forall i, j :: 0 <= i < j < |plan.legs| ==>
          (plan.legs[i].node, TargetGpu(nodes, plan, i)) != (plan.legs[j].node, TargetGpu(nodes, plan, j)))
  }

  /** All parties use one world size and one id, the ranks sent out and the source's 0 are each rank once, and
      NCCL accepts the communicator exactly when no GPU would get two ranks. */
  lemma OneCommunicator(nodes: Cluster, source: string, plan: Plan, ncclId: string, ps: seq<Participant>)
    requires AsExpected(nodes, plan, ncclId, ps) && |ps| == |plan.legs|
    requires source in nodes && plan.bufferId in nodes[source].table
    ensures Ranked(ps, |plan.legs| + 1, ncclId)
    ensures OnePerDevice(ps, source, nodes[source].table[plan.bufferId].gpu) <==> DevicesDistinct(nodes, source, plan)
  {
    forall i | 0 <= i < |plan.legs|
      ensures ps[i].node == plan.legs[i].node && ps[i].gpu == TargetGpu(nodes, plan, i) && ps[i].rank == i + 1
    {
      assert TargetTracked(nodes, plan, i) && ps[i] == Expected(nodes, plan, i, ncclId);
    }
  }

  /** The collective of leg i matches the source's: a positive range, or equal broadcast sizes. */
  predicate CompatibleAt(nodes: Cluster, plan: Plan, sourceSize: nat, i: nat)
    requires i < |plan.legs| && TargetTracked(nodes, plan, i)
  {
    if plan.scatter then plan.legs[i].length > 0 else TargetSize(nodes, plan, i) / 2 == sourceSize / 2
  }

  /** What a caller can check before. */
  predicate Compatible(nodes: Cluster, plan: Plan, sourceSize: nat)
    requires forall i :: 0 <= i < |plan.legs| ==> TargetTracked(nodes, plan, i)
  {
    forall i :: 0 <= i < |plan.legs| ==> CompatibleAt(nodes, plan, sourceSize, i)
  }

  function CompatibleFlags(nodes: Cluster, plan: Plan, sourceSize: nat): seq<bool>
    requires forall i :: 0 <= i < |plan.legs| ==> TargetTracked(nodes, plan, i)
  {
    seq(|plan.legs|, i requires 0 <= i < |plan.legs| => CompatibleAt(nodes, plan, sourceSize, i))
  }

  /** The leading legs that are compatible. */
  function LeadingCompatible(nodes: Cluster, plan: Plan, sourceSize: nat): (n: nat)
    requires forall i :: 0 <= i < |plan.legs| ==> TargetTracked(nodes, plan, i)
    ensures n <= |plan.legs|
  {
    Leading(CompatibleFlags(nodes, plan, sourceSize))
  }

  /** Every send meets a receive, and every broadcast a broadcast of equal element count, up to the first empty
      range, respectively unequal size; all of them exactly when there is none. */
  lemma CollectivesMeet(nodes: Cluster, plan: Plan, ncclId: string, ps: seq<Participant>, sourceSize: nat)
    requires AsExpected(nodes, plan, ncclId, ps) && |ps| == |plan.legs|
    ensures Completed(plan, sourceSize, ps) == LeadingCompatible(nodes, plan, sourceSize)
    ensures Completed(plan, sourceSize, ps) == |ps| <==> Compatible(nodes, plan, sourceSize)
  {
    forall i | 0 <= i < |plan.legs|
      ensures Meets(plan, sourceSize, ps[i]) <==> CompatibleAt(nodes, plan, sourceSize, i)
    {
      MeetsIff(nodes, plan, ncclId, ps, sourceSize, i);
    }
    var oks := CompatibleFlags(nodes, plan, sourceSize);
    hide Leading, Meets, CompatibleAt;
    assert oks == MeetFlags(plan, sourceSize, ps);
    LeadingIs(oks);
    forall i | 0 <= i < |plan.legs|
      ensures oks[i] == CompatibleAt(nodes, plan, sourceSize, i)
    {}
  }

  lemma MeetsIff(nodes: Cluster, plan: Plan, ncclId: string, ps: seq<Participant>, sourceSize: nat, i: nat)
    requires AsExpected(nodes, plan, ncclId, ps) && i < |ps|
    ensures Meets(plan, sourceSize, ps[i]) <==> CompatibleAt(nodes, plan, sourceSize, i)
  {
    assert TargetTracked(nodes, plan, i) && ps[i] == Expected(nodes, plan, i, ncclId);
  }

  // ----- Memory -----

  /** Two states differ in the contents of their memory only. */
  predicate SameShape(s: State, t: State) {
    s.(memory := map[]) == t.(memory := map[]) && PlacesOf(s.memory) == PlacesOf(t.memory)
  }

  lemma ShapeAt(a: Cluster, b: Cluster, n: string)
    requires ShapeOf(a) == ShapeOf(b)
    ensures n in a <==> n in b
    ensures n in a ==> SameShape(a[n], b[n]) && a[n].table == b[n].table && a[n].memory.Keys == b[n].memory.Keys
                       && forall h :: h in a[n].memory ==> |a[n].memory[h].bytes| == |b[n].memory[h].bytes|
  {
    assert n in a <==> n in ShapeOf(a);
    if n in a {
      assert ShapeOf(a)[n] == ShapeOf(b)[n];
      PlacesAt(a[n], b[n]);
    }
  }

  lemma PlacesAt(s: State, t: State)
    requires SameShape(s, t)
    ensures s.memory.Keys == t.memory.Keys
    ensures forall h :: h in s.memory ==>
                          s.memory[h].gpu == t.memory[h].gpu && |s.memory[h].bytes| == |t.memory[h].bytes|
  {
    var x, y := PlacesOf(s.memory), PlacesOf(t.memory);
    forall h | h in s.memory
      ensures h in t.memory && s.memory[h].gpu == t.memory[h].gpu && |s.memory[h].bytes| == |t.memory[h].bytes|
    {
      assert h in x && x[h] == y[h];
    }
  }

  lemma ShapesEqual(a: Cluster, b: Cluster)
    requires a.Keys == b.Keys && forall n :: n in a ==> SameShape(a[n], b[n])
    ensures ShapeOf(a) == ShapeOf(b)
  {}

  lemma StillInBounds(a: Cluster, b: Cluster, plan: Plan, src: seq<Byte>, p: Participant)
    requires ShapeOf(a) == ShapeOf(b) && InBounds(a, plan, src, p)
    ensures InBounds(b, plan, src, p)
  {
    ShapeAt(a, b, p.node);
  }

  predicate Covers(p: Participant, node: string, id: string, at: nat) {
    p.node == node && p.bufferId == id && TargetOffset(p) <= at < TargetOffset(p) + 2 * p.op.count
  }

  /** One of the first n ranges covers the position. */
  predicate Covered(ps: seq<Participant>, n: nat, node: string, id: string, at: nat)
    requires n <= |ps|
  {
    n > 0 && (Covers(ps[n - 1], node, id, at) || Covered(ps, n - 1, node, id, at))
  }

  lemma {:induction false} CoveredIff(ps: seq<Participant>, n: nat, node: string, id: string, at: nat)
    requires n <= |ps|
    ensures Covered(ps, n, node, id, at) <==> exists i :: 0 <= i < n && Covers(ps[i], node, id, at)
  {
    if n > 0 {
      CoveredIff(ps, n - 1, node, id, at);
    }
  }

  /** Different ids name different allocations on the nodes of the participants. */
  predicate Separate(nodes: Cluster, ps: seq<Participant>, node: string, id: string)
    requires node in nodes && Tracked(nodes[node], id)
  {
    forall i ::
      (0 <= i < |ps| && ps[i].node == node && Tracked(nodes[node], ps[i].bufferId)
       && nodes[node].table[ps[i].bufferId].handle == nodes[node].table[id].handle) ==> ps[i].bufferId == id
  }

  /** Writing one buffer changes its range and nothing of any other buffer. */
  lemma DepositAt(nodes: Cluster, plan: Plan, src: seq<Byte>, p: Participant, node: string, id: string, at: nat)
    requires InBounds(nodes, plan, src, p) && SourceOffset(plan, p) == TargetOffset(p)
    requires node in nodes && Tracked(nodes[node], id) && at < |Bytes(nodes[node], id)|
    requires Separate(nodes, [p], node, id)
    ensures ByteAfter(nodes, Deposit(nodes, plan, src, p), src, Covers(p, node, id, at), node, id, at)
  {
    assert p == [p][0];
  }

  lemma SeparateKept(a: Cluster, b: Cluster, ps: seq<Participant>, i: nat, node: string, id: string)
    requires ShapeOf(a) == ShapeOf(b) && i < |ps| && node in a && Tracked(a[node], id) && Separate(a, ps, node, id)
    ensures node in b && Tracked(b[node], id) && |Bytes(b[node], id)| == |Bytes(a[node], id)|
            && Separate(b, [ps[i]], node, id)
  {
    ShapeAt(a, b, node);
  }

  /** The content of a buffer at a position: the source's where a range covers it, else as before. */
  predicate ByteAfter(nodes: Cluster, after: Cluster, src: seq<Byte>, covered: bool, node: string, id: string,
                      at: nat) {
    && node in nodes && Tracked(nodes[node], id) && at < |Bytes(nodes[node], id)|
    && node in after && Tracked(after[node], id) && at < |Bytes(after[node], id)|
    && (covered ==> at < |src| && Bytes(after[node], id)[at] == src[at])
    && (!covered ==> Bytes(after[node], id)[at] == Bytes(nodes[node], id)[at])
  }

  lemma BytesAfterBoth(a: Cluster, b: Cluster, c: Cluster, src: seq<Byte>, first: bool, second: bool,
                       node: string, id: string, at: nat)
    requires node in a && Tracked(a[node], id) && at < |Bytes(a[node], id)|
    requires ByteAfter(a, b, src, first, node, id, at) && ByteAfter(b, c, src, second, node, id, at)
    ensures ByteAfter(a, c, src, second || first, node, id, at)
  {}

  /** All ranges are in bounds and equally placed on both sides, and the buffer at `node` is its own. */
  ghost predicate Placed(nodes: Cluster, plan: Plan, src: seq<Byte>, ps: seq<Participant>, node: string, id: string,
                        at: nat) {
    && (forall i :: 0 <= i < |ps| ==>
          InBounds(nodes, plan, src, ps[i]) && SourceOffset(plan, ps[i]) == TargetOffset(ps[i]))
    && node in nodes && Tracked(nodes[node], id) && at < |Bytes(nodes[node], id)| && Separate(nodes, ps, node, id)
  }

  lemma OneMoreDeposit(nodes: Cluster, before: Cluster, plan: Plan, src: seq<Byte>, ps: seq<Participant>, i: nat,
                       covered: bool, node: string, id: string, at: nat)
    requires Placed(nodes, plan, src, ps, node, id, at) && i < |ps| && ShapeOf(nodes) == ShapeOf(before)
    requires ByteAfter(nodes, before, src, covered, node, id, at)
    ensures ByteAfter(nodes, Deposit(before, plan, src, ps[i]), src, Covers(ps[i], node, id, at) || covered,
                      node, id, at)
  {
    StillInBounds(nodes, before, plan, src, ps[i]);
    SeparateKept(nodes, before, ps, i, node, id);
    DepositAt(before, plan, src, ps[i], node, id, at);
    BytesAfterBoth(nodes, before, Deposit(before, plan, src, ps[i]), src, covered, Covers(ps[i], node, id, at),
                   node, id, at);
  }

  lemma DepositKeepsShape(nodes: Cluster, plan: Plan, src: seq<Byte>, p: Participant)
    ensures ShapeOf(Deposit(nodes, plan, src, p)) == ShapeOf(nodes)
  {
    if InBounds(nodes, plan, src, p) {
      var s, t := nodes[p.node], Deposit(nodes, plan, src, p)[p.node];
      assert PlacesOf(t.memory) == PlacesOf(s.memory);
    }
  }

  /** What every deposit keeps holds after all of them. */
  lemma {:induction false} DepositsKeep(nodes: Cluster, plan: Plan, src: seq<Byte>, ps: seq<Participant>, n: nat,
                                        kept: (nat, Cluster) -> bool)
    requires n <= |ps| && kept(0, nodes)
    requires forall i, c :: 0 <= i < |ps| && kept(i, c) ==> kept(i + 1, Deposit(c, plan, src, ps[i]))
    ensures kept(n, DepositAll(nodes, plan, src, ps, n))
  {
    if n > 0 {
      DepositsKeep(nodes, plan, src, ps, n - 1, kept);
    }
  }

  /** The first i deposits led to `c`. */
  predicate CopiedUpTo(nodes: Cluster, src: seq<Byte>, ps: seq<Participant>, i: nat, c: Cluster, node: string,
                       id: string, at: nat) {
    ShapeOf(nodes) == ShapeOf(c) && i <= |ps| && ByteAfter(nodes, c, src, Covered(ps, i, node, id, at), node, id, at)
  }

  lemma CopiedOneMore(nodes: Cluster, plan: Plan, src: seq<Byte>, ps: seq<Participant>, i: nat, c: Cluster,
                      node: string, id: string, at: nat)
    requires Placed(nodes, plan, src, ps, node, id, at) && i < |ps| && CopiedUpTo(nodes, src, ps, i, c, node, id, at)
    ensures CopiedUpTo(nodes, src, ps, i + 1, Deposit(c, plan, src, ps[i]), node, id, at)
  {
    DepositKeepsShape(c, plan, src, ps[i]);
    OneMoreDeposit(nodes, c, plan, src, ps, i, Covered(ps, i, node, id, at), node, id, at);
    assert Covered(ps, i + 1, node, id, at) == (Covers(ps[i], node, id, at) || Covered(ps, i, node, id, at));
  }

  /** After all deposits each byte of each buffer is the source's byte at the same offset if some
      range of that buffer covers it, and unchanged otherwise. */
  lemma DepositsAt(nodes: Cluster, plan: Plan, src: seq<Byte>, ps: seq<Participant>, node: string, id: string, at: nat)
    requires Placed(nodes, plan, src, ps, node, id, at)
    ensures CopiedUpTo(nodes, src, ps, |ps|, DepositAll(nodes, plan, src, ps, |ps|), node, id, at)
  {
    var kept := (i: nat, c: Cluster) => CopiedUpTo(nodes, src, ps, i, c, node, id, at);
    forall i: nat, c | i < |ps| && kept(i, c)
      ensures kept(i + 1, Deposit(c, plan, src, ps[i]))
    {
      CopiedOneMore(nodes, plan, src, ps, i, c, node, id, at);
    }
    DepositsKeep(nodes, plan, src, ps, |ps|, kept);
  }
}
