/** `build_topology`: ranks of trainers and rollout workers, and the hosts to propagate to. */
module Topology {
  import opened Text

  /** What each side is told; `targets` is None where only the master needs it. */
  datatype Kwargs = Kwargs(ranks: seq<int>, worldSizes: seq<int>, targets: seq<Option<seq<string>>>)

  function Repeat<T>(x: T, n: int): (r: seq<T>)
    ensures |r| == if n > 0 then n else 0
    ensures forall i :: 0 <= i < |r| ==> r[i] == x
  {
    if n > 0 then seq(n, _ => x) else []
  }

  /** The metadata of the rollout workers: everything behind the trainers'. */
  function Rollouts(metadata: seq<Option<string>>, trainers: nat): seq<Option<string>> {
    if trainers <= |metadata| then metadata[trainers..] else []
  }

  /** The rollout hosts other than the trainer's, as a set. */
  function RolloutHosts(metadata: seq<Option<string>>, trainers: nat, trainerHost: string): set<string> {
    set m | m in Rollouts(metadata, trainers) && m.Some? && m.value != trainerHost :: m.value
  }

  /** `list(s)`: the elements of a set, each once, in whatever order the set iterates. */
  ghost predicate Enumerates(order: seq<string>, s: set<string>) {
    && (forall h :: h in order <==> h in s)
    && (forall i, j :: 0 <= i < j < |order| ==> order[i] != order[j])
  }

  function BuildTopology(trainers: nat, rollouts: nat, metadata: seq<Option<string>>, trainerHost: string,
                         order: seq<string>): (Kwargs, Kwargs)
    requires Enumerates(order, RolloutHosts(metadata, trainers, trainerHost))
  {
    (Kwargs([0] + Repeat(-1, trainers - 1), Repeat(rollouts + 1, trainers), Repeat(Some(order), trainers)),
     Kwargs(seq(rollouts, i => i + 1), Repeat(rollouts + 1, rollouts), Repeat(None, rollouts)))
  }

  function CountOf(ranks: seq<int>, rank: int): nat {
    if ranks == [] then 0 else CountOf(ranks[1..], rank) + if ranks[0] == rank then 1 else 0
  }

  lemma {:induction false} CountAbsent(ranks: seq<int>, rank: int)
    requires rank !in ranks
    ensures CountOf(ranks, rank) == 0
  {
    if ranks != [] {
      CountAbsent(ranks[1..], rank);
    }
  }

  lemma {:induction false} CountConcat(a: seq<int>, b: seq<int>, rank: int)
    ensures CountOf(a + b, rank) == CountOf(a, rank) + CountOf(b, rank)
  {
    if a == [] {
      assert a + b == b;
    } else {
      assert (a + b)[1..] == a[1..] + b;
      CountConcat(a[1..], b, rank);
    }
  }

  /** Consecutive ranks from `lo` hold each rank of their range once and no other. */
  lemma {:induction false} CountConsecutive(ranks: seq<int>, lo: int, rank: int)
    requires forall i :: 0 <= i < |ranks| ==> ranks[i] == lo + i
    ensures CountOf(ranks, rank) == if lo <= rank < lo + |ranks| then 1 else 0
  {
    if ranks != [] {
      CountConsecutive(ranks[1..], lo + 1, rank);
    }
  }

  /** Over all workers rank 0 and each rollout rank 1..N is given exactly once; all other trainers get -1. Everyone is
      told the number of these ranks. */
  lemma RanksUnique(trainers: nat, rollouts: nat, metadata: seq<Option<string>>, trainerHost: string,
                    order: seq<string>, rank: int)
    requires Enumerates(order, RolloutHosts(metadata, trainers, trainerHost)) && trainers > 0
    ensures var (t, r) := BuildTopology(trainers, rollouts, metadata, trainerHost, order);
            && |t.ranks| == |t.worldSizes| == trainers && |r.ranks| == |r.worldSizes| == rollouts
            && (0 <= rank <= rollouts ==> CountOf(t.ranks + r.ranks, rank) == 1)
            && (rank < -1 || rank > rollouts ==> CountOf(t.ranks + r.ranks, rank) == 0)
            && t.ranks[0] == 0 && (forall i :: 0 < i < trainers ==> t.ranks[i] == -1)
            && forall w :: w in t.worldSizes + r.worldSizes ==> w == rollouts + 1
  {
    var (t, r) := BuildTopology(trainers, rollouts, metadata, trainerHost, order);
    CountConcat(t.ranks, r.ranks, rank);
    CountConcat([0], Repeat(-1, trainers - 1), rank);
    CountConsecutive([0], 0, rank);
    CountConsecutive(r.ranks, 1, rank);
    if rank != -1 {
      CountAbsent(Repeat(-1, trainers - 1), rank);
    }
  }

  /** The hosts of the rollout workers other than the trainer's own, each once. */
  ghost predicate CoversHosts(metadata: seq<Option<string>>, trainers: nat, trainerHost: string, targets: seq<string>) {
    && (forall h :: h in targets <==>
          h != trainerHost && exists i :: trainers <= i < |metadata| && metadata[i] == Some(h))
    && (forall i, j :: 0 <= i < j < |targets| ==> targets[i] != targets[j])
  }

  /** All trainers are told these hosts as targets, in one order, and rollout workers none. */
  lemma HostsCovered(trainers: nat, rollouts: nat, metadata: seq<Option<string>>, trainerHost: string,
                     order: seq<string>, i: nat)
    requires Enumerates(order, RolloutHosts(metadata, trainers, trainerHost)) && i < trainers
    ensures var (t, r) := BuildTopology(trainers, rollouts, metadata, trainerHost, order);
            && |t.targets| == trainers && |r.targets| == rollouts && (forall x :: x in r.targets ==> x.None?)
            && t.targets[i] == t.targets[0] && t.targets[i].Some?
            && CoversHosts(metadata, trainers, trainerHost, t.targets[i].value)
  {
    var hosts, workers := RolloutHosts(metadata, trainers, trainerHost), Rollouts(metadata, trainers);
    forall h
      ensures h in hosts <==> h != trainerHost && exists i :: trainers <= i < |metadata| && metadata[i] == Some(h)
    {
      if h in hosts {
        var k :| 0 <= k < |workers| && workers[k] == Some(h);
        assert metadata[trainers + k] == Some(h);
      }
      if i :| trainers <= i < |metadata| && metadata[i] == Some(h) && h != trainerHost {
        assert workers[i - trainers] == Some(h) && Some(h) in workers;
      }
    }
  }

  /** `targets` are what the trainer of rank 0 is told, in whatever order the set of hosts iterates. */
  ghost predicate TellsMaster(trainers: nat, rollouts: nat, metadata: seq<Option<string>>, trainerHost: string,
                              targets: seq<string>) {
    trainers > 0 && exists order ::
      && Enumerates(order, RolloutHosts(metadata, trainers, trainerHost))
      && BuildTopology(trainers, rollouts, metadata, trainerHost, order).0.targets[0] == Some(targets)
  }

  lemma MasterCovers(trainers: nat, rollouts: nat, metadata: seq<Option<string>>, trainerHost: string,
                     targets: seq<string>)
    requires TellsMaster(trainers, rollouts, metadata, trainerHost, targets)
    ensures CoversHosts(metadata, trainers, trainerHost, targets)
  {
    var order :| && Enumerates(order, RolloutHosts(metadata, trainers, trainerHost))
                 && BuildTopology(trainers, rollouts, metadata, trainerHost, order).0.targets[0] == Some(targets);
    HostsCovered(trainers, rollouts, metadata, trainerHost, order, 0);
    hide RolloutHosts, BuildTopology, CoversHosts;
  }
}
