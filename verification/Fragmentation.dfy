/** What a propagation does when the handshakes arrive in any fragments, cut headers included. */
module Fragmentation {
  import opened Text
  import opened DriverState
  import opened Handshake
  import opened HandshakeRoundTrip
  import opened Propagation
  import opened PropagationProofs
  import opened PropagationTheorems

  /** The target cannot make a participant with the call's NCCL id of what it parses: the header is cut where the
      handler raises, or the id is made of header text. */
  predicate Garbled(plan: Plan, ncclId: string, wires: seq<seq<string>>, i: nat)
    requires i < |plan.legs| && Wired(plan.legs, wires) && |ncclId| == NCCL_ID_LENGTH
  {
    var m, h := MessageTo(plan, i, ncclId), |Gather("", wires[i]).0|;
    !HeaderHeld(plan, ncclId, wires, i) && (h <= Parsable(m) || CutId(m, h) != ncclId)
  }

  /** All targets join, with what they have heard. */
  ghost predicate AsHeard(nodes: Cluster, plan: Plan, ncclId: string, wires: seq<seq<string>>, ps: seq<Participant>) {
    && Transmitted(plan, ncclId, wires) && |ps| == |plan.legs|
    && forall i :: 0 <= i < |ps| ==> Brings(nodes, plan, ncclId, wires, i) == Some(ps[i])
  }

  lemma {:induction false} JoinersAll(answers: seq<Option<Participant>>)
    requires |Joiners(answers)| == |answers|
    ensures forall i :: 0 <= i < |answers| ==> answers[i] == Some(Joiners(answers)[i])
  {
    if answers != [] {
      JoinersAll(answers[1..]);
      assert forall i :: 1 <= i < |answers| ==> answers[i] == answers[1..][i - 1];
    }
  }

  lemma AllJoin(nodes: Cluster, plan: Plan, ncclId: string, wires: seq<seq<string>>)
    requires Transmitted(plan, ncclId, wires)
    requires |Joiners(Answers(nodes, plan.legs, wires))| == |plan.legs|
    ensures AsHeard(nodes, plan, ncclId, wires, Joiners(Answers(nodes, plan.legs, wires)))
  {
    var answers := Answers(nodes, plan.legs, wires);
    JoinersAll(answers);
    hide Joiners, Accept, Brings;
    forall i | 0 <= i < |plan.legs|
      ensures Brings(nodes, plan, ncclId, wires, i) == Some(Joiners(answers)[i])
    {
      AcceptBrings(nodes, plan, ncclId, wires, i);
      assert answers[i] == Accept(nodes, plan.legs[i].node, wires[i]);
    }
  }

  // ----- Cut ranks -----

  /** The rank that target i hears is its own or the beginning of it. */
  lemma HeardRank(plan: Plan, ncclId: string, wires: seq<seq<string>>, i: nat)
    requires Transmitted(plan, ncclId, wires) && i < |plan.legs| && Heard(plan, ncclId, wires, i).Some?
    ensures Heard(plan, ncclId, wires, i).value.rank <= i + 1
    ensures Heard(plan, ncclId, wires, i).value.rank == i + 1 && !HeaderHeld(plan, ncclId, wires, i) ==>
              var m, h := MessageTo(plan, i, ncclId), |Gather("", wires[i]).0|;
              CutLine(m, h) == 2 ==> CutTail(m, h) == Show(m.rank)
  {
    var m, h := MessageTo(plan, i, ncclId), |Gather("", wires[i]).0|;
    if !HeaderHeld(plan, ncclId, wires, i) {
      HeldPrefix(m, wires[i]);
      FirstNewline(m);
      CutIsParsable(m, h);
      if CutLine(m, h) == 2 {
        RankPrefix(m.rank, |CutTail(m, h)|);
      }
    }
  }

  lemma RankPrefix(n: int, i: nat)
    requires n > 0 && 0 < i <= |Show(n)|
    ensures ParseInt(Show(n)[..i]).Some? && ParseInt(Show(n)[..i]).value <= n
    ensures ParseInt(Show(n)[..i]) == Some(n) ==> Show(n)[..i] == Show(n)
  {
    PrefixReads(n, i);
    PrefixAtMost(n, i);
    if i == |Show(n)| {
      assert Show(n)[..i] == Show(n);
    }
  }

  /** Distinct positive ranks none of which exceeds its place are the places. */
  lemma {:induction false} RanksInPlace(ps: seq<Participant>, i: nat)
    requires forall j :: 0 <= j < |ps| ==> 1 <= ps[j].rank <= j + 1
    requires forall j, k :: 0 <= j < k < |ps| ==> ps[j].rank != ps[k].rank
    requires i < |ps|
    ensures ps[i].rank == i + 1
  {
    if ps[i].rank < i + 1 {
      var k := ps[i].rank - 1;
      RanksInPlace(ps, k);
      assert false;
    }
  }

  // ----- Calls with cut headers -----

  /** With one garbled connection the call delivers nothing and changes nothing. */
  lemma GarbledCall(nodes: Cluster, source: string, plan: Plan, ncclId: string, wires: seq<seq<string>>, wreck: Wreck,
                    i: nat)
    requires Transmitted(plan, ncclId, wires) && i < |plan.legs| && Garbled(plan, ncclId, wires, i)
    ensures var e := Propagated(nodes, source, plan, ncclId, wires, wreck);
            e.nodes == nodes && (e.result == Result.Raised || e.result == Deadlocked)
  {
    var ps := Joiners(Answers(nodes, plan.legs, wires));
    if SourceTracked(nodes, source, plan) && |ps| == |plan.legs| {
      AllJoin(nodes, plan, ncclId, wires);
      assert Brings(nodes, plan, ncclId, wires, i) == Some(ps[i]);
      assert ps[i].ncclId != ncclId;
      hide Joiners, Answers, Garbled, AsHeard, Brings, Heard;
    }
  }

  /** A participant that did not arrive well has a wrong id or a wrong rank, or broadcasts where it is sent a range. */
  lemma IllHeard(nodes: Cluster, plan: Plan, ncclId: string, wires: seq<seq<string>>, ps: seq<Participant>, i: nat)
    requires AsHeard(nodes, plan, ncclId, wires, ps) && i < |ps| && !ArrivesWell(plan, ncclId, wires, i)
    ensures ps[i].ncclId != ncclId || ps[i].rank != i + 1 || (plan.scatter && ps[i].op.Bcast?)
  {
    assert Brings(nodes, plan, ncclId, wires, i) == Some(ps[i]);
    HeardRank(plan, ncclId, wires, i);
  }

  lemma RanksHeard(nodes: Cluster, plan: Plan, ncclId: string, wires: seq<seq<string>>, ps: seq<Participant>, i: nat)
    requires AsHeard(nodes, plan, ncclId, wires, ps) && i < |ps| && Ranked(ps, |plan.legs| + 1, ncclId)
    ensures ps[i].rank == i + 1
  {
    forall j | 0 <= j < |ps|
      ensures 1 <= ps[j].rank <= j + 1
    {
      assert Brings(nodes, plan, ncclId, wires, j) == Some(ps[j]);
      HeardRank(plan, ncclId, wires, j);
    }
    hide Brings, AsHeard;
    RanksInPlace(ps, i);
  }

  lemma IllHeardCall(nodes: Cluster, source: string, plan: Plan, ncclId: string, wires: seq<seq<string>>, wreck: Wreck,
                     i: nat)
    requires Transmitted(plan, ncclId, wires) && i < |plan.legs| && !ArrivesWell(plan, ncclId, wires, i)
    ensures Propagated(nodes, source, plan, ncclId, wires, wreck).result != Delivered
  {
    var ps := Joiners(Answers(nodes, plan.legs, wires));
    if SourceTracked(nodes, source, plan) && |ps| == |plan.legs| {
      AllJoin(nodes, plan, ncclId, wires);
      IllHeardConcluded(nodes, source, plan, ncclId, wires, ps, wreck, i);
      hide Joiners, Answers, AsHeard, Concluded, ArrivesWell;
    }
  }

  lemma IllHeardConcluded(nodes: Cluster, source: string, plan: Plan, ncclId: string, wires: seq<seq<string>>,
                          ps: seq<Participant>, wreck: Wreck, i: nat)
    requires SourceTracked(nodes, source, plan) && AsHeard(nodes, plan, ncclId, wires, ps)
    requires i < |ps| && !ArrivesWell(plan, ncclId, wires, i)
    ensures Concluded(nodes, source, plan, ncclId, ps, wreck).result != Delivered
  {
    IllHeard(nodes, plan, ncclId, wires, ps, i);
    if Ranked(ps, |plan.legs| + 1, ncclId) {
      RanksHeard(nodes, plan, ncclId, wires, ps, i);
      assert ps[i].ncclId == ncclId;
      MeetsNot(plan, SourceSize(nodes, source, plan), ps, i);
    }
    hide AsHeard, Ranked, OnePerDevice, Completed, ArrivesWell, DepositAll, InBounds, Notified;
  }

  lemma MeetsNot(plan: Plan, sourceSize: nat, ps: seq<Participant>, i: nat)
    requires plan.scatter && i < |ps| && ps[i].op.Bcast?
    ensures Completed(plan, sourceSize, ps) < |ps|
  {
    var oks := MeetFlags(plan, sourceSize, ps);
    LeadingIs(oks);
    assert !oks[i];
  }

  /** For every way in which the handshakes arrive: the call delivers exactly when it was worth sending and every
      header is held, or replaced by an id that repeats it. A garbled header costs the call, and nothing changes. */
  lemma DeliversOnAnyWire(nodes: Cluster, source: string, plan: Plan, ncclId: string, wires: seq<seq<string>>,
                          wreck: Wreck)
    requires AllSound(nodes) && Transmitted(plan, ncclId, wires)
    ensures var e := Propagated(nodes, source, plan, ncclId, wires, wreck);
            && (e.result == Delivered <==> Sendworthy(nodes, source, plan) && Carried(plan, ncclId, wires))
            && (Carried(plan, ncclId, wires) ==> LeavesAsStated(nodes, source, plan, wreck, e))
            && ((exists i :: 0 <= i < |plan.legs| && Garbled(plan, ncclId, wires, i)) ==> e.nodes == nodes)
  {
    if Carried(plan, ncclId, wires) {
      DeliversExactly(nodes, source, plan, ncclId, wires, wreck);
    } else {
      var i :| 0 <= i < |plan.legs| && !ArrivesWell(plan, ncclId, wires, i);
      IllHeardCall(nodes, source, plan, ncclId, wires, wreck, i);
    }
    if i :| 0 <= i < |plan.legs| && Garbled(plan, ncclId, wires, i) {
      GarbledCall(nodes, source, plan, ncclId, wires, wreck, i);
    }
    hide Propagated, Carried, Sendworthy, Garbled;
  }
}
