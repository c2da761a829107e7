/** The reconciler of WeightClaims: which shard a claim gets, its status, and its ResourceClaim. */
module ClaimController {
  import opened Text
  import opened Shards
  import opened Conditions
  import B = BufferController

  /** `annotations` maps to the number that `Sscanf` reads from the value, None if it reads none. */
  datatype Claim = Claim(bufferName: string, shardIndex: Option<int>, annotations: map<string, Option<int>>)

  datatype ResolveError = NotDiscovered | NoIndex | OutOfRange(index: int, total: int)
  datatype Resolution = Resolved(index: int, path: Path, sizeBytes: int) | Unresolved(error: ResolveError)

  const RANK_ANNOTATIONS := ["wpi.io/shard-index", "batch.kubernetes.io/job-completion-index", "ray.io/rank"]

  // ----- resolveShardIndex -----

  /** The first rank annotation, from position k on, that is present and readable. */
  function FirstRank(annotations: map<string, Option<int>>, names: seq<string>): Option<int> {
    if names == [] then None
    else if names[0] in annotations && annotations[names[0]].Some? then annotations[names[0]]
    else FirstRank(annotations, names[1..])
  }

  function WantedIndex(claim: Claim): Option<int> {
    if claim.shardIndex.Some? then claim.shardIndex else FirstRank(claim.annotations, RANK_ANNOTATIONS)
  }

  function Resolve(claim: Claim, spec: Spec, st: B.Status): Resolution {
    if st.totalShards <= 0 then Unresolved(NotDiscovered) else
    match WantedIndex(claim)
    case None => Unresolved(NoIndex)
    case Some(i) =>
      if i < 0 || i >= st.totalShards then Unresolved(OutOfRange(i, st.totalShards))
      else if i < |st.discovered| then Resolved(i, st.discovered[i].path, st.discovered[i].sizeBytes)
      else Resolved(i, Plain(spec.sourcePath), 0)    // table not yet populated
  }

  method ResolveShardIndex(claim: Claim, spec: Spec, st: B.Status) returns (r: Resolution)
    ensures r == Resolve(claim, spec, st)
  {
    if st.totalShards <= 0 {
      return Unresolved(NotDiscovered);
    }
    var shardIndex := 0;
    if claim.shardIndex.Some? {
      shardIndex := claim.shardIndex.value;
    } else {
      var found := false;
      var k := 0;
      while k < |RANK_ANNOTATIONS| && !found
        invariant k <= |RANK_ANNOTATIONS|
        invariant found ==> FirstRank(claim.annotations, RANK_ANNOTATIONS) == Some(shardIndex)
        invariant !found ==> FirstRank(claim.annotations, RANK_ANNOTATIONS)
                             == FirstRank(claim.annotations, RANK_ANNOTATIONS[k..])
      {
        var annotation := RANK_ANNOTATIONS[k];
        assert RANK_ANNOTATIONS[k..][1..] == RANK_ANNOTATIONS[k + 1..];
        if annotation in claim.annotations && claim.annotations[annotation].Some? {
          shardIndex, found := claim.annotations[annotation].value, true;
        }
        k := k + 1;
      }
      if !found {
        return Unresolved(NoIndex);
      }
    }
    if shardIndex < 0 || shardIndex >= st.totalShards {
      return Unresolved(OutOfRange(shardIndex, st.totalShards));
    }
    if shardIndex < |st.discovered| {
      var shard := st.discovered[shardIndex];
      return Resolved(shardIndex, shard.path, shard.sizeBytes);
    }
    return Resolved(shardIndex, Plain(spec.sourcePath), 0);
  }

  // ----- Which shard a claim wants -----

  /** The annotation reads as i. */
  predicate Reads(claim: Claim, name: string, i: int) {
    name in claim.annotations && claim.annotations[name] == Some(i)
  }

  /** The annotation is missing or not a number. */
  predicate Unread(claim: Claim, name: string) {
    name !in claim.annotations || claim.annotations[name].None?
  }

  /** The claim wants shard i: by its own field, else by the annotation of this project, of Kubernetes jobs or of Ray,
      the first that can be read. */
  predicate Wants(claim: Claim, i: int) {
    if claim.shardIndex.Some? then claim.shardIndex.value == i
    else || Reads(claim, "wpi.io/shard-index", i)
         || (Unread(claim, "wpi.io/shard-index") && Reads(claim, "batch.kubernetes.io/job-completion-index", i))
         || (Unread(claim, "wpi.io/shard-index") && Unread(claim, "batch.kubernetes.io/job-completion-index")
             && Reads(claim, "ray.io/rank", i))
  }

  lemma WantsIs(claim: Claim, i: int)
    ensures Wants(claim, i) <==> WantedIndex(claim) == Some(i)
  {
    var names, a := RANK_ANNOTATIONS, claim.annotations;
    assert names[1..][0] == "batch.kubernetes.io/job-completion-index" && names[1..][1..] == ["ray.io/rank"];
    assert FirstRank(a, []) == None && ["ray.io/rank"][1..] == [];
    assert FirstRank(a, ["ray.io/rank"]) == if Unread(claim, "ray.io/rank") then None else a["ray.io/rank"];
    assert FirstRank(a, names[1..]) == if Unread(claim, names[1]) then FirstRank(a, ["ray.io/rank"]) else a[names[1]];
  }

  /** The refusal says what is missing: the discovery, the index, or its range. */
  ghost predicate Refused(claim: Claim, st: B.Status, e: ResolveError) {
    match e
    case NotDiscovered => st.totalShards <= 0
    case NoIndex => st.totalShards > 0 && forall i :: !Wants(claim, i)
    case OutOfRange(i, n) => Wants(claim, i) && !(0 <= i < st.totalShards) && n == st.totalShards > 0
  }

  /** The claim gets shard i, with the entry of the table, or the whole source while the table lacks it. */
  predicate Granted(claim: Claim, spec: Spec, st: B.Status, i: int, path: Path, size: int) {
    && Wants(claim, i) && 0 <= i < st.totalShards
    && (if i < |st.discovered| then path == st.discovered[i].path && size == st.discovered[i].sizeBytes
        else path == Plain(spec.sourcePath) && size == 0)
  }

  /** A claim is resolved exactly when it wants a shard in range. */
  lemma ResolveMeans(claim: Claim, spec: Spec, st: B.Status)
    ensures match Resolve(claim, spec, st)
            case Resolved(i, path, size) => Granted(claim, spec, st, i, path, size)
            case Unresolved(e) => Refused(claim, st, e)
    ensures Resolve(claim, spec, st).Resolved? <==> exists i :: Wants(claim, i) && 0 <= i < st.totalShards
  {
    forall i
      ensures Wants(claim, i) <==> WantedIndex(claim) == Some(i)
    {
      WantsIs(claim, i);
    }
    hide Wants, WantedIndex;
  }

  /** Against every status that buffer reconciles can reach, a claim that wants shard i is resolved exactly when i is
      below the shard count of the last spec that was sharded and stored, step k, and gets the entry that this spec
      promises for i: the fallback is never taken. Nothing is resolved while there was no such step. */
  lemma ResolvesFromTable(claim: Claim, spec: Spec, steps: seq<B.Step>, i: int) returns (k: int)
    requires Wants(claim, i)
    ensures -1 <= k < |steps| && forall j :: k < j < |steps| ==> !B.Stores(steps[j])
    ensures k >= 0 ==> B.Stores(steps[k]) && PromisedTable(steps[k].spec, B.Run(B.FRESH, steps).discovered)
    ensures var st := B.Run(B.FRESH, steps);
            && (Resolve(claim, spec, st).Resolved? <==> k >= 0 && 0 <= i < steps[k].spec.sharding.value.numShards)
            && (Resolve(claim, spec, st).Resolved? ==>
                  && i < |st.discovered|
                  && Resolve(claim, spec, st) == Resolved(i, st.discovered[i].path, st.discovered[i].sizeBytes))
  {
    var st := B.Run(B.FRESH, steps);
    k := B.TableOfLast(B.FRESH, steps);
    B.InvRun(B.FRESH, steps);
    ResolveMeans(claim, spec, st);
    WantsIs(claim, i);
    if Resolve(claim, spec, st).Resolved? {
      WantsIs(claim, Resolve(claim, spec, st).index);
    }
    hide Resolve, Wants, B.Run, PromisedTable, B.Stores;
  }

  // ----- Reconcile -----

  datatype Message = BufferFound | BufferNotFound | Assigned(index: int, total: int, path: Path, sizeBytes: int)
                   | Rejected(error: ResolveError)
  datatype Status = Status(conditions: seq<Condition<Message>>, assignedShard: Option<int>)

  const VALIDATED := "Validated"

  /** What the API server answers: the buffer (None: not found), and whether each call works. */
  datatype World = World(buffer: Option<(Spec, B.Status)>, bufferGet: bool, update: bool, resourceGet: bool,
                         create: bool)

  /** The verdict of one reconcile: status, reason and message of the condition, and the index to assign. */
  datatype Verdict = Verdict(valid: bool, reason: string, message: Message, index: Option<int>)

  function Judge(claim: Claim, w: World): Verdict {
    match w.buffer
    case None => Verdict(false, "BufferNotFound", BufferNotFound, None)
    case Some((spec, st)) =>
      if spec.sharding.None? then Verdict(true, "BufferFound", BufferFound, None)
      else match Resolve(claim, spec, st)
        case Unresolved(e) => Verdict(false, "ShardValidationFailed", Rejected(e), None)
        case Resolved(i, path, size) => Verdict(true, "BufferFound", Assigned(i, st.totalShards, path, size), Some(i))
  }

  /** The Validated condition is missing or of the other status. */
  predicate Flips(st: Status, v: Verdict) {
    var k := Find(st.conditions, VALIDATED);
    k == |st.conditions| || st.conditions[k].status != v.valid
  }

  /** The status as the reconcile stores it when the condition flips. */
  function Flipped(st: Status, v: Verdict, time: nat): Status {
    Status(SetCondition(st.conditions, Condition(VALIDATED, v.valid, time, v.reason, v.message)),
           if v.index.Some? then v.index else st.assignedShard)
  }

  /** The stored objects after one reconcile, and whether it returned without an error. */
  datatype Stored = Stored(status: Status, resource: bool)

  function Reconciled(claim: Claim, s: Stored, w: World, time: nat): (Stored, bool) {
    if !w.bufferGet then (s, false) else
    var v := Judge(claim, w);
    if Flips(s.status, v) && !w.update then (s, false) else
    var s1 := if Flips(s.status, v) then s.(status := Flipped(s.status, v, time)) else s;
    if !v.valid then (s1, true)
    else if !w.resourceGet then (s1, false)
    else if s1.resource then (s1, true)
    else if !w.create then (s1, false)
    else (s1.(resource := true), true)
  }

  class WeightClaim {
    var claim: Claim
    var stored: Stored

    constructor (claim: Claim)
      ensures this.claim == claim && stored == Stored(Status([], None), false)
    {
      this.claim := claim;
      stored := Stored(Status([], None), false);
    }

    method Reconcile(w: World, time: nat) returns (ok: bool)
      modifies `stored
      ensures (stored, ok) == Reconciled(claim, old(stored), w, time)
    {
      if !w.bufferGet {
        return false;
      }
      var valid, reason, message := true, "BufferFound", BufferFound;
      var local := stored.status;
      if w.buffer.None? {
        valid, reason, message := false, "BufferNotFound", BufferNotFound;
      } else if w.buffer.value.0.sharding.Some? {
        var (spec, st) := w.buffer.value;
        var r := ResolveShardIndex(claim, spec, st);
        match r {
          case Unresolved(e) =>
            valid, reason, message := false, "ShardValidationFailed", Rejected(e);
          case Resolved(i, path, size) =>
            local := local.(assignedShard := Some(i));
            message := Assigned(i, st.totalShards, path, size);
        }
      }
      var k := IndexOfValidated(local.conditions);
      if k == |local.conditions| || local.conditions[k].status != valid {
        var c := Condition(VALIDATED, valid, time, reason, message);
        SetAt(local.conditions, c, k);
        if k == |local.conditions| {
          local := local.(conditions := local.conditions + [c]);
        } else {
          local := local.(conditions := local.conditions[k := c]);
        }
        if !w.update {
          return false;
        }
        stored := stored.(status := local);
      }
      if valid {
        if !w.resourceGet {
          return false;
        }
        if !stored.resource {
          if !w.create {
            return false;
          }
          stored := stored.(resource := true);
        }
      }
      return true;
    }

    method IndexOfValidated(cs: seq<Condition<Message>>) returns (k: nat)
      ensures k == Find(cs, VALIDATED)
    {
      k := 0;
      while k < |cs| && cs[k].ctype != VALIDATED
        invariant k <= |cs| && forall i :: 0 <= i < k ==> cs[i].ctype != VALIDATED
      {
        k := k + 1;
      }
    }
  }

  // ----- What a reconcile does -----

  /** The claim gets shard i of this buffer. */
  predicate Due(claim: Claim, w: World, i: int) {
    && w.buffer.Some? && w.buffer.value.0.sharding.Some?
    && Wants(claim, i) && 0 <= i < w.buffer.value.1.totalShards
  }

  /** The buffer is there, and unsharded or with a shard for the claim. */
  ghost predicate Acceptable(claim: Claim, w: World) {
    w.buffer.Some? && (w.buffer.value.0.sharding.None? || exists i :: Due(claim, w, i))
  }

  /** Reason and message say why the claim is valid or not. */
  ghost predicate Explains(claim: Claim, w: World, reason: string, message: Message) {
    match w.buffer
    case None => reason == "BufferNotFound" && message == BufferNotFound
    case Some((spec, st)) =>
      if spec.sharding.None? then reason == "BufferFound" && message == BufferFound else
      match message
      case Assigned(i, n, path, size) =>
        reason == "BufferFound" && Granted(claim, spec, st, i, path, size) && n == st.totalShards
      case Rejected(e) => reason == "ShardValidationFailed" && Refused(claim, st, e)
      case _ => false
  }

  lemma JudgeMeans(claim: Claim, w: World)
    ensures var v := Judge(claim, w);
            && (v.valid <==> Acceptable(claim, w)) && Explains(claim, w, v.reason, v.message)
            && forall i :: Due(claim, w, i) <==> v.index == Some(i)
  {
    if w.buffer.Some? && w.buffer.value.0.sharding.Some? {
      var (spec, st) := w.buffer.value;
      ResolveMeans(claim, spec, st);
      forall i
        ensures Due(claim, w, i) <==> Judge(claim, w).index == Some(i)
      {
        WantsIs(claim, i);
      }
    }
    hide Wants, Refused;
  }

  /** The first Validated condition, if any, has this status. */
  ghost predicate Says(cs: seq<Condition<Message>>, status: bool) {
    exists k :: 0 <= k < |cs| && cs[k].ctype == "Validated" && cs[k].status == status
                && forall j :: 0 <= j < k ==> cs[j].ctype != "Validated"
  }

  /** The reconcile stores a new status: it got the buffer's answer, and the condition is missing or says otherwise. */
  ghost predicate Restates(claim: Claim, st: Status, w: World) {
    w.bufferGet && !Says(st.conditions, Acceptable(claim, w))
  }

  lemma SaysFound(cs: seq<Condition<Message>>, status: bool)
    ensures Says(cs, status) <==> Find(cs, "Validated") < |cs| && cs[Find(cs, "Validated")].status == status
  {}

  lemma RestatesIff(claim: Claim, st: Status, w: World)
    ensures Restates(claim, st, w) <==> w.bufferGet && Flips(st, Judge(claim, w))
  {
    JudgeMeans(claim, w);
    SaysFound(st.conditions, Acceptable(claim, w));
    hide Judge, Acceptable, Says, Find, Explains, Due;
  }

  lemma FlippedFound(st: Status, v: Verdict, time: nat)
    ensures var cs := Flipped(st, v, time).conditions;
            Find(cs, VALIDATED) == Find(st.conditions, VALIDATED) < |cs| && cs[Find(cs, VALIDATED)].status == v.valid
  {
    FindSet(st.conditions, Condition(VALIDATED, v.valid, time, v.reason, v.message));
  }

  /** A reconcile goes without an error exactly when every call that it makes works; then the claim is Validated exactly
      when it is acceptable. */
  lemma ValidatesIff(claim: Claim, s: Stored, w: World, time: nat)
    ensures var (t, ok) := Reconciled(claim, s, w, time);
            && (ok <==> && w.bufferGet && (Restates(claim, s.status, w) ==> w.update)
                        && (Acceptable(claim, w) ==> w.resourceGet && (s.resource || w.create)))
            && (ok ==> Says(t.status.conditions, true) == Acceptable(claim, w)
                       && Says(t.status.conditions, false) == !Acceptable(claim, w))
  {
    JudgeMeans(claim, w);
    RestatesIff(claim, s.status, w);
    FlippedFound(s.status, Judge(claim, w), time);
    var t := Reconciled(claim, s, w, time).0;
    SaysFound(t.status.conditions, true);
    SaysFound(t.status.conditions, false);
    hide Judge, Acceptable, Says, Find, Explains, Due, Restates, SetCondition;
  }

  /** The new condition, and every other one as it was. */
  ghost predicate NewCondition(claim: Claim, w: World, time: nat, was: seq<Condition<Message>>,
                               cs: seq<Condition<Message>>) {
    exists k, reason, message :: && Explains(claim, w, reason, message) && PutFirst(was, cs, k,
      Condition("Validated", Acceptable(claim, w), time, reason, message))
  }

  /** `c` replaces the first condition of its type, at k, or comes last. */
  predicate PutFirst(was: seq<Condition<Message>>, cs: seq<Condition<Message>>, k: int, c: Condition<Message>) {
    && 0 <= k <= |was| && cs == (if k < |was| then was[k := c] else was + [c])
    && (forall j :: 0 <= j < k ==> was[j].ctype != c.ctype) && (k < |was| ==> was[k].ctype == c.ctype)
  }

  /** What is stored: when the reconcile restates the condition and the update works, the new condition, and the index
      of the claim's shard if it has one; otherwise nothing. The ResourceClaim appears exactly when there was none, the
      claim is acceptable and its status up to date, and the calls work. */
  lemma StoresExactly(claim: Claim, s: Stored, w: World, time: nat)
    ensures var t := Reconciled(claim, s, w, time).0;
            && (if Restates(claim, s.status, w) && w.update
                then && NewCondition(claim, w, time, s.status.conditions, t.status.conditions)
                     && (forall i :: Due(claim, w, i) ==> t.status.assignedShard == Some(i))
                     && ((forall i :: !Due(claim, w, i)) ==> t.status.assignedShard == s.status.assignedShard)
                else t.status == s.status)
            && (t.resource <==> s.resource || (&& w.bufferGet && (Restates(claim, s.status, w) ==> w.update)
                                               && Acceptable(claim, w) && w.resourceGet && w.create))
  {
    JudgeMeans(claim, w);
    RestatesIff(claim, s.status, w);
    var v := Judge(claim, w);
    assert v.index.Some? ==> Due(claim, w, v.index.value);
    hide Judge, Acceptable, Says, Explains, Due, Restates, SetCondition;
    StoresCondition(claim, s.status, w, time, v);
  }

  lemma StoresCondition(claim: Claim, st: Status, w: World, time: nat, v: Verdict)
    requires (v.valid <==> Acceptable(claim, w)) && Explains(claim, w, v.reason, v.message)
    ensures NewCondition(claim, w, time, st.conditions, Flipped(st, v, time).conditions)
  {
    var c, k := Condition(VALIDATED, v.valid, time, v.reason, v.message), Find(st.conditions, VALIDATED);
    SetAt(st.conditions, c, k);
    hide Acceptable, Explains, SetCondition;
    assert PutFirst(st.conditions, Flipped(st, v, time).conditions, k, c);
  }

  // ----- What reconciles keep -----

  datatype Step = Step(claim: Claim, world: World, time: nat)

  function Run(s: Stored, steps: seq<Step>): Stored
    decreases |steps|
  {
    if steps == [] then s else Run(Reconciled(steps[0].claim, s, steps[0].world, steps[0].time).0, steps[1..])
  }

  /** The reconcile gets as far as creating the ResourceClaim, and the call works. */
  ghost predicate Creates(s: Stored, step: Step) {
    var w := step.world;
    && w.bufferGet && (Restates(step.claim, s.status, w) ==> w.update) && Acceptable(step.claim, w)
    && w.resourceGet && !s.resource && w.create
  }

  /** How many ResourceClaims the run creates. */
  ghost function Creations(s: Stored, steps: seq<Step>): nat
    decreases |steps|
  {
    if steps == [] then 0 else
    Creations(Reconciled(steps[0].claim, s, steps[0].world, steps[0].time).0, steps[1..])
    + if Creates(s, steps[0]) then 1 else 0
  }

  lemma StepKeeps(s: Stored, step: Step)
    requires UniqueTypes(s.status.conditions)
    ensures var t := Reconciled(step.claim, s, step.world, step.time).0;
            UniqueTypes(t.status.conditions) && (t.resource <==> s.resource || Creates(s, step))
  {
    var v := Judge(step.claim, step.world);
    SetConditionKeeps(s.status.conditions, Condition(VALIDATED, v.valid, step.time, v.reason, v.message));
    StoresExactly(step.claim, s, step.world, step.time);
    hide Judge, Acceptable, Restates, SetCondition, NewCondition, Due;
  }

  /** Over all runs condition types stay unique, and a ResourceClaim is created at most once: exactly once if there
      was none at first and is one at last, and never if there was one. */
  lemma {:induction false} RunKeeps(s: Stored, steps: seq<Step>)
    requires UniqueTypes(s.status.conditions)
    ensures UniqueTypes(Run(s, steps).status.conditions)
    ensures Creations(s, steps) == if Run(s, steps).resource && !s.resource then 1 else 0
    ensures s.resource ==> Run(s, steps).resource
    decreases |steps|
  {
    if steps != [] {
      StepKeeps(s, steps[0]);
      RunKeeps(Reconciled(steps[0].claim, s, steps[0].world, steps[0].time).0, steps[1..]);
    }
  }

  /** A ResourceClaim appears only in a reconcile that validated the claim, when there was none. */
  lemma CreatedOnlyWhenValid(claim: Claim, s: Stored, w: World, time: nat)
    ensures var (t, ok) := Reconciled(claim, s, w, time);
            t.resource != s.resource ==>
              ok && t.resource && Acceptable(claim, w) && w.create && Says(t.status.conditions, true)
  {
    StoresExactly(claim, s, w, time);
    ValidatesIff(claim, s, w, time);
    hide Reconciled, Acceptable, Says, Restates, NewCondition;
  }

  /** After a reconcile without an error, a second one with the same answers changes nothing at all. */
  lemma SecondReconcile(claim: Claim, s: Stored, w: World, t1: nat, t2: nat)
    requires Reconciled(claim, s, w, t1).1
    ensures var s1 := Reconciled(claim, s, w, t1).0; Reconciled(claim, s1, w, t2) == (s1, true)
  {
    FlippedFound(s.status, Judge(claim, w), t1);
  }

  /** The reconcile stores shard index i: it resolves the shard and restates the condition, and the update works. */
  ghost predicate Assigns(s: Stored, step: Step, i: int) {
    Restates(step.claim, s.status, step.world) && step.world.update && Due(step.claim, step.world, i)
  }

  lemma AssignedAfter(s: Stored, step: Step)
    ensures var t := Reconciled(step.claim, s, step.world, step.time).0;
            && (forall i :: Assigns(s, step, i) ==> t.status.assignedShard == Some(i))
            && ((forall i :: !Assigns(s, step, i)) ==> t.status.assignedShard == s.status.assignedShard)
  {
    StoresExactly(step.claim, s, step.world, step.time);
    hide Reconciled, Acceptable, Restates, NewCondition, Due;
    if Restates(step.claim, s.status, step.world) && step.world.update {
      assert forall i :: Due(step.claim, step.world, i) ==> Assigns(s, step, i);
    }
  }

  lemma {:induction false} RunLast(s: Stored, steps: seq<Step>)
    requires steps != []
    ensures var front, last := steps[..|steps| - 1], steps[|steps| - 1];
            Run(s, steps) == Reconciled(last.claim, Run(s, front), last.world, last.time).0
    decreases |steps|
  {
    hide Reconciled;
    var s1 := Reconciled(steps[0].claim, s, steps[0].world, steps[0].time).0;
    if |steps| == 1 {
      assert Run(s1, steps[1..]) == s1;
    } else {
      RunLast(s1, steps[1..]);
      assert steps[..|steps| - 1][1..] == steps[1..][..|steps| - 2];
    }
  }

  /** Over all runs the stored index is the one of the last reconcile that resolved a shard and restated the condition,
      step k; or the first one, with k == -1, if there was no such reconcile. */
  lemma {:induction false} AssignedAtLastFlip(s: Stored, steps: seq<Step>) returns (k: int)
    ensures -1 <= k < |steps|
    ensures forall j, i :: k < j < |steps| ==> !Assigns(Run(s, steps[..j]), steps[j], i)
    ensures if k < 0 then Run(s, steps).status.assignedShard == s.status.assignedShard
            else exists i :: Assigns(Run(s, steps[..k]), steps[k], i) && Run(s, steps).status.assignedShard == Some(i)
    decreases |steps|
  {
    if steps == [] {
      return -1;
    }
    var n := |steps| - 1;
    RunLast(s, steps);
    AssignedAfter(Run(s, steps[..n]), steps[n]);
    if i :| Assigns(Run(s, steps[..n]), steps[n], i) {
      k := n;
    } else {
      k := AssignedAtLastFlip(s, steps[..n]);
      assert forall j :: 0 <= j <= n ==> steps[..n][..j] == steps[..j];
      assert forall j, i :: k < j < n ==> !Assigns(Run(s, steps[..n][..j]), steps[..n][j], i);
    }
    hide Reconciled, Assigns;
  }

  /** The index of the claim's shard reaches the stored status exactly when the reconcile restates the condition, or
      the status held that index already: a re-pointed claim that stays valid keeps its old assignment. */
  lemma AssignmentStoredIff(claim: Claim, s: Stored, w: World, time: nat, i: int)
    requires Reconciled(claim, s, w, time).1 && Due(claim, w, i)
    ensures Reconciled(claim, s, w, time).0.status.assignedShard == Some(i) <==>
            Restates(claim, s.status, w) || s.status.assignedShard == Some(i)
  {
    StoresExactly(claim, s, w, time);
    ValidatesIff(claim, s, w, time);
    hide Reconciled, Acceptable, Restates, NewCondition, Due, Says;
  }

  /** When a claim's wanted shard changes between two successful reconciles, the stored index stays the old one. */
  lemma StaleAssignment(c1: Claim, c2: Claim, s: Stored, w: World, t1: nat, t2: nat, i: int, j: int)
    requires Reconciled(c1, s, w, t1).1 && Restates(c1, s.status, w)
    requires Due(c1, w, i) && Due(c2, w, j)
    ensures Reconciled(c2, Reconciled(c1, s, w, t1).0, w, t2).0.status.assignedShard == Some(i)
  {
    var s1 := Reconciled(c1, s, w, t1).0;
    StoresExactly(c1, s, w, t1);
    ValidatesIff(c1, s, w, t1);
    StoresExactly(c2, s1, w, t2);
    assert Acceptable(c1, w) && Acceptable(c2, w);
    hide Reconciled, NewCondition, Due, Says;
  }
}
