/** NodePropagate: the source hands out ranks over the handshake, all parties form one NCCL
    communicator, and matched collectives copy bytes. */
module Propagation {
  import opened Text
  import opened Keys
  import opened DriverState
  import opened Handshake
  import N = Notify

  datatype Assignment = Assignment(node: string, shardIndex: int, offset: nat, length: nat)
  datatype Request = Request(bufferId: string, targets: seq<string>, mode: int, assignments: seq<Assignment>)

  predicate Scatters(r: Request) {
    r.mode == SCATTER && r.assignments != []
  }

  // ----- What the source sends -----

  /** One connection: the node, the id of its buffer, and the range in scatter mode. */
  datatype Leg = Leg(node: string, id: string, offset: nat, length: nat)

  /** The connections that a request leads to, in rank order. */
  datatype Plan = Plan(bufferId: string, mode: int, scatter: bool, legs: seq<Leg>)

  /** One connection per assignment, or, broadcasting (or without assignments), one per target. */
  function PlanOf(r: Request): Plan {
    if Scatters(r) then
      Plan(r.bufferId, r.mode, true, seq(|r.assignments|, i requires 0 <= i < |r.assignments| =>
        var a := r.assignments[i]; Leg(a.node, ScatterTargetId(r.bufferId, a.shardIndex), a.offset, a.length)))
    else
      Plan(r.bufferId, r.mode, false, seq(|r.targets|, i requires 0 <= i < |r.targets| =>
        Leg(r.targets[i], r.bufferId, 0, 0)))
  }

  function MessageTo(plan: Plan, i: nat, ncclId: string): Message
    requires i < |plan.legs|
  {
    var leg := plan.legs[i];
    Message(leg.id, |plan.legs| + 1, i + 1, plan.mode, leg.offset, leg.length, ncclId)
  }

  // ----- What a target makes of it -----

  /** The one collective a rank issues, in half-float elements. */
  datatype Op = Bcast(count: nat) | Recv(offset: int, count: nat)

  datatype Participant = Participant(node: string, bufferId: string, gpu: int, worldSize: int, rank: int,
                                     ncclId: string, op: Op)

  /** The participant that a message makes of a tracked buffer. */
  function Joining(nodes: Cluster, node: string, m: Message): Participant
    requires node in nodes && Tracked(nodes[node], m.bufferId)
  {
    var e := nodes[node].table[m.bufferId];
    Participant(node, m.bufferId, e.gpu, m.worldSize, m.rank, m.ncclId, TargetOp(m, e.size))
  }

  function TargetOp(m: Message, size: nat): Op {
    if m.mode == SCATTER && m.length > 0 then Op.Recv(m.offset, m.length / 2) else Bcast(size / 2)
  }

  type Cluster = map<string, State>

  /** Some exactly when the target answers OK. */
  function Accept(nodes: Cluster, node: string, wire: seq<string>): Option<Participant>
    requires Fragments(wire)
  {
    if node !in nodes then None else
    var outcome := Understand(wire);
    if !outcome.Received? then None else
    var m := outcome.message;
    if !Tracked(nodes[node], m.bufferId) then None else
    Some(Joining(nodes, node, m))
  }

  predicate Wired(legs: seq<Leg>, wires: seq<seq<string>>) {
    |wires| == |legs| && forall i :: 0 <= i < |wires| ==> Fragments(wires[i])
  }

  /** What the targets answer, connection by connection. */
  function Answers(nodes: Cluster, legs: seq<Leg>, wires: seq<seq<string>>): (answers: seq<Option<Participant>>)
    requires Wired(legs, wires)
    ensures |answers| == |legs|
  {
    seq(|legs|, i requires 0 <= i < |legs| => Accept(nodes, legs[i].node, wires[i]))
  }

  /** The participants up to the first refusal. */
  function Joiners(answers: seq<Option<Participant>>): (ps: seq<Participant>)
    ensures |ps| <= |answers|
  {
    if answers == [] || answers[0].None? then [] else [answers[0].value] + Joiners(answers[1..])
  }

  lemma JoinersFrom(answers: seq<Option<Participant>>, i: nat)
    requires i < |answers|
    ensures Joiners(answers[i..])
         == if answers[i].None? then [] else [answers[i].value] + Joiners(answers[i + 1..])
  {
    assert answers[i..][1..] == answers[i + 1..];
  }

  // ----- NCCL -----

  /** One world size, one id, and with the source's rank 0 every rank exactly once. */
  predicate Ranked(ps: seq<Participant>, worldSize: int, ncclId: string) {
    && |ps| + 1 == worldSize
    && (forall i :: 0 <= i < |ps| ==>
          ps[i].worldSize == worldSize && ps[i].ncclId == ncclId && 1 <= ps[i].rank < worldSize)
    && (forall i, j :: 0 <= i < j < |ps| ==> ps[i].rank != ps[j].rank)
  }

  /** No GPU has two ranks; the source's has rank 0. NCCL refuses the communicator otherwise. */
  predicate OnePerDevice(ps: seq<Participant>, source: string, gpu: int) {
    && (forall i :: 0 <= i < |ps| ==> (ps[i].node, ps[i].gpu) != (source, gpu))
    && (forall i, j :: 0 <= i < j < |ps| ==> (ps[i].node, ps[i].gpu) != (ps[j].node, ps[j].gpu))
  }

  /** The source's operation towards `p` meets the operation of `p` with the same element count. */
  predicate Meets(plan: Plan, sourceSize: nat, p: Participant) {
    if plan.scatter
    then 1 <= p.rank <= |plan.legs| && p.op.Recv? && p.op.count == plan.legs[p.rank - 1].length / 2
    else p.op == Bcast(sourceSize / 2)
  }

  /** How many leading entries are true. */
  function Leading(oks: seq<bool>): (n: nat)
    ensures n <= |oks|
  {
    if oks == [] || !oks[0] then 0 else 1 + Leading(oks[1..])
  }

  function MeetFlags(plan: Plan, sourceSize: nat, ps: seq<Participant>): seq<bool> {
    seq(|ps|, i requires 0 <= i < |ps| => Meets(plan, sourceSize, ps[i]))
  }

  /** The sends of a scatter run one after the other: how many complete before one meets no receive. */
  function Completed(plan: Plan, sourceSize: nat, ps: seq<Participant>): (n: nat)
    ensures n <= |ps|
  {
    Leading(MeetFlags(plan, sourceSize, ps))
  }

  /** The offset in the source and the offset in the target of the bytes that `p` receives. */
  function SourceOffset(plan: Plan, p: Participant): int {
    if plan.scatter && 1 <= p.rank <= |plan.legs| then plan.legs[p.rank - 1].offset else 0
  }

  function TargetOffset(p: Participant): int {
    if p.op.Recv? then p.op.offset else 0
  }

  predicate InBounds(nodes: Cluster, plan: Plan, src: seq<Byte>, p: Participant) {
    && p.node in nodes && Tracked(nodes[p.node], p.bufferId)
    && 0 <= SourceOffset(plan, p) && SourceOffset(plan, p) + 2 * p.op.count <= |src|
    && 0 <= TargetOffset(p) && TargetOffset(p) + 2 * p.op.count <= |Bytes(nodes[p.node], p.bufferId)|
  }

  function Splice(dst: seq<Byte>, offset: nat, data: seq<Byte>): seq<Byte>
    requires offset + |data| <= |dst|
  {
    dst[..offset] + data + dst[offset + |data|..]
  }

  function Deposit(nodes: Cluster, plan: Plan, src: seq<Byte>, p: Participant): Cluster {
    if !InBounds(nodes, plan, src, p) then nodes else
    var s := nodes[p.node];
    var data := src[SourceOffset(plan, p)..SourceOffset(plan, p) + 2 * p.op.count];
    nodes[p.node := Overwritten(s, p.bufferId, Splice(Bytes(s, p.bufferId), TargetOffset(p), data))]
  }

  function DepositAll(nodes: Cluster, plan: Plan, src: seq<Byte>, ps: seq<Participant>, n: nat): Cluster
    requires n <= |ps|
  {
    if n == 0 then nodes else Deposit(DepositAll(nodes, plan, src, ps, n - 1), plan, src, ps[n - 1])
  }

  // ----- The whole call -----

  /** GPU and length of each live allocation. */
  function PlacesOf(memory: map<nat, Memory>): (places: map<nat, (int, nat)>)
    ensures places.Keys == memory.Keys
  {
    map h | h in memory :: (memory[h].gpu, |memory[h].bytes|)
  }

  /** Everything about the nodes but the contents of their memory. */
  function ShapeOf(nodes: Cluster): (shape: map<string, (State, map<nat, (int, nat)>)>)
    ensures shape.Keys == nodes.Keys
  {
    map n | n in nodes :: (nodes[n].(memory := map[]), PlacesOf(nodes[n].memory))
  }

  /** A signal to the local consumers of a buffer. */
  datatype Told = Told(node: string, id: string, signal: N.Signal)

  function Notified(ps: seq<Participant>, signal: N.Signal): seq<Told> {
    seq(|ps|, i requires 0 <= i < |ps| => Told(ps[i].node, ps[i].bufferId, signal))
  }

  datatype Result = Raised | Deadlocked | OutOfBounds | Delivered

  /** How a call ends: its result, the memory of the cluster, and the signals sent, in order. */
  datatype Effect = Effect(result: Result, nodes: Cluster, signals: seq<Told>)

  lemma OneMoreJoined(ps: seq<Participant>, p: Participant, rest: seq<Participant>, signal: N.Signal)
    ensures Notified(ps + [p], signal) == Notified(ps, signal) + [Told(p.node, p.bufferId, signal)]
    ensures ps + [p] + rest == ps + ([p] + rest)
  {}

  /** What NCCL leaves of the contents, per node and handle, and which buffers are told READY, where that is not
      defined: broadcasts of unequal counts, and ranges outside a buffer. */
  datatype Wreck = Wreck(contents: map<string, map<nat, seq<Byte>>>, ready: seq<Told>)

  function WreckedMemory(memory: map<nat, Memory>, contents: map<nat, seq<Byte>>): map<nat, Memory> {
    map h | h in memory ::
      if h in contents && |contents[h]| == |memory[h].bytes| then memory[h].(bytes := contents[h]) else memory[h]
  }

  /** NCCL changes contents only. */
  function Wrecked(nodes: Cluster, wreck: Wreck): Cluster {
    map n | n in nodes ::
      if n in wreck.contents then nodes[n].(memory := WreckedMemory(nodes[n].memory, wreck.contents[n])) else nodes[n]
  }

  function Propagated(nodes: Cluster, source: string, plan: Plan, ncclId: string, wires: seq<seq<string>>,
                      wreck: Wreck): Effect
    requires Wired(plan.legs, wires)
  {
    if source !in nodes || !Tracked(nodes[source], plan.bufferId) then Effect(Result.Raised, nodes, []) else
    var ps := Joiners(Answers(nodes, plan.legs, wires));
    var told := [Told(source, plan.bufferId, N.PreUpdate)] + Notified(ps, N.PreUpdate);
    if |ps| < |plan.legs| then Effect(Result.Raised, nodes, told) else
    var e := Concluded(nodes, source, plan, ncclId, ps, wreck);
    e.(signals := told + e.signals)
  }

  /** NCCL with those who joined, and the signals after it. */
  function Concluded(nodes: Cluster, source: string, plan: Plan, ncclId: string, ps: seq<Participant>,
                     wreck: Wreck): Effect
    requires source in nodes && Tracked(nodes[source], plan.bufferId)
  {
    var e, src := nodes[source].table[plan.bufferId], Bytes(nodes[source], plan.bufferId);
    if !Ranked(ps, |plan.legs| + 1, ncclId) then Effect(Deadlocked, nodes, [])
    else if !OnePerDevice(ps, source, e.gpu) then Effect(Result.Raised, nodes, [])
    else Transferred(nodes, source, plan, src, ps, Completed(plan, e.size, ps), wreck)
  }

  /** The first n operations meet. */
  function Transferred(nodes: Cluster, source: string, plan: Plan, src: seq<Byte>, ps: seq<Participant>, n: nat,
                       wreck: Wreck): Effect
    requires n <= |ps|
  {
    if !plan.scatter && n < |ps| then Effect(Deadlocked, Wrecked(nodes, wreck), wreck.ready)
    else if exists i :: 0 <= i < n && !InBounds(nodes, plan, src, ps[i]) then
      Effect(OutOfBounds, Wrecked(nodes, wreck), wreck.ready)
    else
      Effect(if n < |ps| then Deadlocked else Delivered, DepositAll(nodes, plan, src, ps, n),
             Notified(ps[..n], N.Ready) + if n < |ps| then [] else [Told(source, plan.bufferId, N.Ready)])
  }

  /** One connection per assignment, respectively target, each of non-empty fragments. */
  predicate WiredFor(r: Request, wires: seq<seq<string>>)
    ensures WiredFor(r, wires) ==> Wired(PlanOf(r).legs, wires)
  {
    && |wires| == (if r.mode == SCATTER && r.assignments != [] then |r.assignments| else |r.targets|)
    && forall i :: 0 <= i < |wires| ==> Fragments(wires[i])
  }

  /** The call for a request. */
  function CallFor(nodes: Cluster, source: string, r: Request, ncclId: string, wires: seq<seq<string>>,
                   wreck: Wreck): Effect
    requires WiredFor(r, wires)
  {
    Propagated(nodes, source, PlanOf(r), ncclId, wires, wreck)
  }

  class Fabric {
    var nodes: Cluster

    constructor (nodes: Cluster)
      ensures this.nodes == nodes
    {
      this.nodes := nodes;
    }

    /** The target's side up to its answer. */
    method HandleTarget(node: string, wire: seq<string>) returns (p: Option<Participant>)
      requires Fragments(wire)
      ensures p == Accept(nodes, node, wire)
    {
      if node !in nodes {
        return None;
      }
      var conn := new Connection(wire);
      var outcome := ReceiveHandshake(conn);
      if !outcome.Received? {
        return None;
      }
      var m := outcome.message;
      if !Tracked(nodes[node], m.bufferId) {
        return None;
      }
      return Some(Joining(nodes, node, m));
    }

    /** The source connects to one target after the other and gives up at the first refusal. A target that
        accepts tells its consumers PRE_UPDATE before it answers. */
    method Connect(legs: seq<Leg>, wires: seq<seq<string>>) returns (ps: seq<Participant>, told: seq<Told>)
      requires Wired(legs, wires)
      ensures ps == Joiners(Answers(nodes, legs, wires)) && told == Notified(ps, N.PreUpdate)
    {
      ghost var answers := Answers(nodes, legs, wires);
      ps, told := [], [];
      for i := 0 to |legs|
        invariant answers == Answers(nodes, legs, wires)
        invariant Joiners(answers) == ps + Joiners(answers[i..]) && told == Notified(ps, N.PreUpdate)
      {
        JoinersFrom(answers, i);
        hide Joiners, Accept, Notified, Flat;
        var p := HandleTarget(legs[i].node, wires[i]);
        assert answers[i] == p;
        if p.None? {
          return;
        }
        OneMoreJoined(ps, p.value, Joiners(answers[i + 1..]), N.PreUpdate);
        told := told + [Told(p.value.node, p.value.bufferId, N.PreUpdate)];
        ps := ps + [p.value];
      }
    }

    /** The first n targets receive what the source sends them. */
    method Transfer(plan: Plan, src: seq<Byte>, ps: seq<Participant>, n: nat)
      requires n <= |ps|
      modifies this
      ensures nodes == DepositAll(old(nodes), plan, src, ps, n)
    {
      for i := 0 to n
        invariant nodes == DepositAll(old(nodes), plan, src, ps, i)
      {
        nodes := Deposit(nodes, plan, src, ps[i]);
      }
    }

    /** The source's side; `wires[i]` is what connection i delivers to its target. */
    method NodePropagate(source: string, r: Request, ncclId: string, wires: seq<seq<string>>, wreck: Wreck)
      returns (result: Result, told: seq<Told>)
      requires WiredFor(r, wires)
      modifies this
      ensures Effect(result, nodes, told) == CallFor(old(nodes), source, r, ncclId, wires, wreck)
    {
      if source !in nodes || !Tracked(nodes[source], r.bufferId) {
        return Result.Raised, [];
      }
      var plan := PlanOf(r);
      var worldSize := |r.targets| + 1;
      if Scatters(r) {
        worldSize := |r.assignments| + 1;
      }
      var ps, accepted := Connect(plan.legs, wires);
      told := [Told(source, r.bufferId, N.PreUpdate)] + accepted;
      if |ps| < |plan.legs| {
        return Result.Raised, told;
      }
      var ready;
      result, ready := Collective(source, plan, worldSize, ncclId, ps, wreck);
      told := told + ready;
    }

    /** NCCL, and READY to the consumers of every side that gets through. */
    method Collective(source: string, plan: Plan, worldSize: int, ncclId: string, ps: seq<Participant>, wreck: Wreck)
      returns (result: Result, ready: seq<Told>)
      requires source in nodes && Tracked(nodes[source], plan.bufferId) && worldSize == |plan.legs| + 1
      modifies this
      ensures Effect(result, nodes, ready) == Concluded(old(nodes), source, plan, ncclId, ps, wreck)
    {
      var e, src := nodes[source].table[plan.bufferId], Bytes(nodes[source], plan.bufferId);
      if !Ranked(ps, worldSize, ncclId) {
        return Deadlocked, [];
      }
      if !OnePerDevice(ps, source, e.gpu) {
        return Result.Raised, [];
      }
      var n := Completed(plan, e.size, ps);
      if !plan.scatter && n < |ps| {
        nodes := Wrecked(nodes, wreck);
        return Deadlocked, wreck.ready;
      }
      if exists i :: 0 <= i < n && !InBounds(nodes, plan, src, ps[i]) {
        nodes := Wrecked(nodes, wreck);
        return OutOfBounds, wreck.ready;
      }
      Transfer(plan, src, ps, n);
      ready := Notified(ps[..n], N.Ready);
      if n < |ps| {
        return Deadlocked, ready;
      }
      return Delivered, ready + [Told(source, plan.bufferId, N.Ready)];
    }
  }
}
