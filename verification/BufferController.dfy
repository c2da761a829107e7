/** The reconciler of WeightBuffers: shard discovery into the status, and its conditions. */
module BufferController {
  import opened Text
  import opened Shards
  import opened Conditions

  datatype Message =
    | NumShardsMustBePositive | MutuallyExclusive | Reason(failure: Failure) | DiscoveredCount(n: nat) | Created
  datatype Status = Status(conditions: seq<Condition<Message>>, totalShards: int, discovered: seq<Shard>)

  const SHARDING := "ShardingConfigured"
  const READY := "Ready"

  // ----- Reconcile -----

  /** The verdict on the sharding spec: the condition, and the shards when discovery succeeds. */
  function Verdict(spec: Spec, time: nat): (Condition<Message>, Option<seq<Shard>>)
    requires spec.sharding.Some?
  {
    var s := spec.sharding.value;
    if s.numShards <= 0 then (Condition(SHARDING, false, time, "InvalidSpec", NumShardsMustBePositive), None)
    else if |s.shardFiles| > 0 && s.filePattern != "" then
      (Condition(SHARDING, false, time, "InvalidSpec", MutuallyExclusive), None)
    else match Discover(spec)
      case Failed(f) => (Condition(SHARDING, false, time, "DiscoveryFailed", Reason(f)), None)
      case Found(shards) =>
        (Condition(SHARDING, true, time, "ShardsDiscovered", DiscoveredCount(|shards|)), Some(shards))
  }

  function AfterSharding(spec: Spec, st: Status, time: nat): Status {
    if spec.sharding.None? then st else
    var (c, shards) := Verdict(spec, time);
    var st1 := st.(conditions := SetCondition(st.conditions, c));
    if shards.None? then st1 else st1.(totalShards := spec.sharding.value.numShards, discovered := shards.value)
  }

  function ReadyCondition(time: nat): Condition<Message> {
    Condition(READY, true, time, "BufferCreated", Created)
  }

  /** The status that the reconcile asks to store. */
  function Reconciled(spec: Spec, st: Status, time: nat): Status {
    var st1 := AfterSharding(spec, st, time);
    if HasType(st1.conditions, READY) then st1
    else st1.(conditions := SetCondition(st1.conditions, ReadyCondition(time)))
  }

  predicate Changes(spec: Spec, st: Status) {
    spec.sharding.Some? || !HasType(st.conditions, READY)
  }

  /** One reconcile of whatever spec the object has by then, stored or not. */
  datatype Step = Step(spec: Spec, time: nat, stored: bool)

  function Next(st: Status, step: Step): Status {
    if Changes(step.spec, st) && step.stored then Reconciled(step.spec, st, step.time) else st
  }

  class WeightBuffer {
    var spec: Spec
    var status: Status

    constructor (spec: Spec)
      ensures this.spec == spec && status == Status([], 0, [])
    {
      this.spec := spec;
      status := Status([], 0, []);
    }

    /** One reconcile; without `stored` the status update fails and the stored object keeps its status. */
    method Reconcile(time: nat, stored: bool) returns (ok: bool)
      modifies `status
      ensures ok <==> stored || (spec.sharding.None? && HasType(old(status).conditions, "Ready"))
      ensures status == Next(old(status), Step(spec, time, stored))
    {
      var local := status;
      var statusChanged := false;
      if spec.sharding.Some? {
        var s := spec.sharding.value;
        var c: Condition<Message>;
        if s.numShards <= 0 {
          c := Condition(SHARDING, false, time, "InvalidSpec", NumShardsMustBePositive);
        } else if |s.shardFiles| > 0 && s.filePattern != "" {
          c := Condition(SHARDING, false, time, "InvalidSpec", MutuallyExclusive);
        } else {
          var d := DiscoverShards(spec);
          match d {
            case Failed(f) =>
              c := Condition(SHARDING, false, time, "DiscoveryFailed", Reason(f));
            case Found(shards) =>
              local := local.(totalShards := s.numShards, discovered := shards);
              c := Condition(SHARDING, true, time, "ShardsDiscovered", DiscoveredCount(|shards|));
          }
        }
        var cs := WithCondition(local.conditions, c);
        local := local.(conditions := cs);
        statusChanged := true;
      }
      var ready := FindReady(local.conditions);
      if !ready {
        var cs := WithCondition(local.conditions, ReadyCondition(time));
        local := local.(conditions := cs);
        statusChanged := true;
      }
      if statusChanged {
        if !stored {
          return false;
        }
        status := local;
      }
      return true;
    }

    /** `setCondition`'s loop over the conditions. */
    method WithCondition(cs: seq<Condition<Message>>, c: Condition<Message>) returns (r: seq<Condition<Message>>)
      ensures r == SetCondition(cs, c)
    {
      for i := 0 to |cs|
        invariant forall j :: 0 <= j < i ==> cs[j].ctype != c.ctype
      {
        if cs[i].ctype == c.ctype {
          SetAt(cs, c, i);
          return cs[i := c];
        }
      }
      SetAt(cs, c, |cs|);
      return cs + [c];
    }

    method FindReady(cs: seq<Condition<Message>>) returns (found: bool)
      ensures found == HasType(cs, READY)
    {
      for i := 0 to |cs|
        invariant forall j :: 0 <= j < i ==> cs[j].ctype != READY
      {
        if cs[i].ctype == READY {
          return true;
        }
      }
      return false;
    }
  }

  // ----- Over all runs -----

  function Run(st: Status, steps: seq<Step>): Status
    decreases |steps|
  {
    if steps == [] then st else Run(Next(st, steps[0]), steps[1..])
  }

  const FRESH := Status([], 0, [])

  ghost predicate Inv(st: Status) {
    UniqueTypes(st.conditions) && st.totalShards == |st.discovered|
  }

  lemma InvNext(st: Status, step: Step)
    requires Inv(st)
    ensures Inv(Next(st, step))
  {
    var st1 := AfterSharding(step.spec, st, step.time);
    if step.spec.sharding.Some? {
      SetConditionKeeps(st.conditions, Verdict(step.spec, step.time).0);
    }
    SetConditionKeeps(st1.conditions, ReadyCondition(step.time));
  }

  /** In every status reached from the empty one, whatever specs, failures and lost updates in between, the
      total is the length of the table and condition types are unique. */
  lemma {:induction false} InvRun(st: Status, steps: seq<Step>)
    requires Inv(st)
    ensures Inv(Run(st, steps))
    decreases |steps|
  {
    if steps != [] {
      InvNext(st, steps[0]);
      InvRun(Next(st, steps[0]), steps[1..]);
    }
  }

  // ----- What is stored -----

  /** The spec can be sharded: a positive count, not both files and a pattern, and what its own way of cutting needs. */
  predicate Shardable(spec: Spec) {
    && spec.sharding.Some? && spec.sharding.value.numShards > 0
    && !(spec.sharding.value.shardFiles != [] && spec.sharding.value.filePattern != "")
    && Discoverable(spec)
  }

  /** The condition says whether the spec can be sharded, and if not, why. */
  predicate Tells(spec: Spec, c: Condition<Message>)
    requires spec.sharding.Some?
  {
    var s := spec.sharding.value;
    && c.ctype == "ShardingConfigured" && (c.status <==> Shardable(spec))
    && (if c.status then c.reason == "ShardsDiscovered" && c.message == DiscoveredCount(s.numShards)
        else if s.numShards <= 0 then c.reason == "InvalidSpec" && c.message == NumShardsMustBePositive
        else if s.shardFiles != [] && s.filePattern != ""
        then c.reason == "InvalidSpec" && c.message == MutuallyExclusive
        else c.reason == "DiscoveryFailed" && c.message.Reason? && Explained(spec, c.message.failure))
  }

  /** The first condition of the type is `c`. */
  predicate Shows(cs: seq<Condition<Message>>, t: string, c: Condition<Message>) {
    exists k :: 0 <= k < |cs| && cs[k] == c && c.ctype == t && forall j :: 0 <= j < k ==> cs[j].ctype != t
  }

  lemma ShowsFound(cs: seq<Condition<Message>>, t: string, c: Condition<Message>)
    ensures Shows(cs, t, c) <==> Find(cs, t) < |cs| && cs[Find(cs, t)] == c
  {}

  /** After a stored reconcile the sharding condition is true exactly when the spec can be sharded. Then the status has
      the shards that the spec promises, as many as declared; otherwise those of before. */
  lemma StoresTable(spec: Spec, st: Status, time: nat)
    requires spec.sharding.Some?
    ensures var t := Next(st, Step(spec, time, true));
            && (exists c :: Shows(t.conditions, "ShardingConfigured", c) && Tells(spec, c) && c.time == time)
            && (if Shardable(spec)
                then t.totalShards == spec.sharding.value.numShards && PromisedTable(spec, t.discovered)
                else t.totalShards == st.totalShards && t.discovered == st.discovered)
  {
    var c := Verdict(spec, time).0;
    AfterFirst(spec, st, time);
    VerdictTells(spec, time);
    ShowsFound(Next(st, Step(spec, time, true)).conditions, "ShardingConfigured", c);
    hide Find, SetCondition, HasType, Discoverable, PromisedTable, Shows, Tells, Discover;
  }

  lemma VerdictTells(spec: Spec, time: nat)
    requires spec.sharding.Some?
    ensures var (c, shards) := Verdict(spec, time);
            && Tells(spec, c) && c.time == time && (shards.Some? <==> Shardable(spec))
            && (shards.Some? ==> PromisedTable(spec, shards.value))
  {
    if spec.sharding.value.numShards > 0 {
      DiscoversExactly(spec);
    }
    hide Discover, PromisedTable, Discoverable, Explained;
  }

  /** A reconcile leaves every other condition, adds Ready once, and without sharding leaves the shards. */
  lemma LeavesTheRest(spec: Spec, st: Status, time: nat, stored: bool, t: string)
    ensures var st1 := Next(st, Step(spec, time, stored));
            && (!stored ==> st1 == st)
            && (spec.sharding.None? ==> st1.totalShards == st.totalShards && st1.discovered == st.discovered)
            && (t != "ShardingConfigured" || spec.sharding.None? ==>
                  forall c :: Shows(st.conditions, t, c) ==> Shows(st1.conditions, t, c))
            && (stored && !HasType(st.conditions, "Ready") ==>
                  Shows(st1.conditions, "Ready", Condition("Ready", true, time, "BufferCreated", Created)))
            && (HasType(st1.conditions, t) ==> HasType(st.conditions, t) || t == "Ready" || t == "ShardingConfigured")
  {
    var st1, mid := Next(st, Step(spec, time, stored)), AfterSharding(spec, st, time);
    if spec.sharding.Some? {
      VerdictType(spec, time);
      SetKeepsShown(st.conditions, Verdict(spec, time).0, t);
      SetHasTypes(st.conditions, Verdict(spec, time).0, "Ready");
    }
    SetKeepsShown(mid.conditions, ReadyCondition(time), t);
    FindSet(mid.conditions, ReadyCondition(time));
    ShowsFound(SetCondition(mid.conditions, ReadyCondition(time)), "Ready", ReadyCondition(time));
    ShownHasType(st.conditions, t);
    ShownHasType(mid.conditions, t);
    hide Verdict, Shows, SetCondition, Find, HasType, Discover;
  }

  lemma ShownHasType(cs: seq<Condition<Message>>, t: string)
    ensures forall c :: Shows(cs, t, c) ==> HasType(cs, t)
  {}

  lemma SetKeepsShown(cs: seq<Condition<Message>>, c: Condition<Message>, t: string)
    ensures t != c.ctype ==> forall d :: Shows(cs, t, d) ==> Shows(SetCondition(cs, c), t, d)
    ensures HasType(SetCondition(cs, c), t) <==> HasType(cs, t) || c.ctype == t
  {
    SetHasTypes(cs, c, t);
    forall d | t != c.ctype && Shows(cs, t, d)
      ensures Shows(SetCondition(cs, c), t, d)
    {
      ShowsFound(cs, t, d);
      FindKept(cs, c, t);
      ShowsFound(SetCondition(cs, c), t, d);
    }
  }

  /** The reconcile stores shards. */
  predicate Stores(step: Step) {
    step.stored && Shardable(step.spec)
  }

  /** Over all runs the status has the shards of the last reconcile that could shard its spec and was stored, step k;
      or those of the start, with k == -1, if there was no such reconcile. */
  lemma {:induction false} TableOfLast(st: Status, steps: seq<Step>) returns (k: int)
    ensures -1 <= k < |steps| && forall j :: k < j < |steps| ==> !Stores(steps[j])
    ensures var t := Run(st, steps);
            if k < 0 then t.totalShards == st.totalShards && t.discovered == st.discovered
            else && Stores(steps[k]) && t.totalShards == steps[k].spec.sharding.value.numShards
                 && PromisedTable(steps[k].spec, t.discovered)
    decreases |steps|
  {
    if steps == [] {
      return -1;
    }
    var st1 := Next(st, steps[0]);
    StepTable(st, steps[0]);
    k := TableOfLast(st1, steps[1..]);
    if k >= 0 || Stores(steps[0]) {
      k := k + 1;
    }
    assert forall j :: 1 <= j < |steps| ==> steps[j] == steps[1..][j - 1];
    hide Next, Stores, PromisedTable;
  }

  lemma StepTable(st: Status, step: Step)
    ensures var t := Next(st, step);
            if Stores(step)
            then t.totalShards == step.spec.sharding.value.numShards && PromisedTable(step.spec, t.discovered)
            else t.totalShards == st.totalShards && t.discovered == st.discovered
  {
    if step.spec.sharding.Some? && step.stored {
      StoresTable(step.spec, st, step.time);
    } else {
      LeavesTheRest(step.spec, st, step.time, step.stored, "Ready");
    }
    hide PromisedTable, Discoverable, Reconciled, Tells, Shows;
  }

  // ----- Idempotence -----

  predicate SameUpToTime(a: Status, b: Status) {
    && a.totalShards == b.totalShards && a.discovered == b.discovered && |a.conditions| == |b.conditions|
    && forall i :: 0 <= i < |a.conditions| ==> a.conditions[i] == b.conditions[i].(time := a.conditions[i].time)
  }

  /** After a first reconcile the verdict's condition and Ready are there. */
  lemma AfterFirst(spec: Spec, st: Status, time: nat)
    ensures var cs := Reconciled(spec, st, time).conditions;
            && HasType(cs, READY)
            && (spec.sharding.Some? ==> Find(cs, SHARDING) < |cs| && cs[Find(cs, SHARDING)] == Verdict(spec, time).0)
  {
    if spec.sharding.Some? {
      VerdictType(spec, time);
    }
    hide Verdict, Find, HasType, SetCondition;
    var mid := AfterSharding(spec, st, time).conditions;
    SetHasTypes(mid, ReadyCondition(time), READY);
    if spec.sharding.Some? {
      FindSet(st.conditions, Verdict(spec, time).0);
      FindKept(mid, ReadyCondition(time), SHARDING);
    }
  }

  lemma VerdictType(spec: Spec, time: nat)
    requires spec.sharding.Some?
    ensures Verdict(spec, time).0.ctype == SHARDING
  {}

  /** With an unchanged spec a second reconcile changes nothing but the transition time of the sharding
      condition; without sharding it does not even ask for an update. */
  lemma SecondReconcile(spec: Spec, st: Status, t1: nat, t2: nat)
    ensures var st1 := Reconciled(spec, st, t1);
            && SameUpToTime(Reconciled(spec, st1, t2), st1)
            && (spec.sharding.None? ==> !Changes(spec, st1))
  {
    var st1 := Reconciled(spec, st, t1);
    AfterFirst(spec, st, t1);
    if spec.sharding.Some? {
      var c := Verdict(spec, t2).0;
      assert c == Verdict(spec, t1).0.(time := t2);
      HasTypeFind(st1.conditions, SHARDING);
      SetAgain(st1.conditions, c);
      SetHasTypes(st1.conditions, c, READY);
    }
  }
}
