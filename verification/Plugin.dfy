/** The DRA plugin: from prepared claims to stage requests at the local driver, and back. */
module Plugin {
  import opened Arithmetic
  import opened Text
  import opened Keys
  import opened DriverState
  import opened DriverInvariants
  import opened DriverAccounts
  import opened Driver
  import opened Shards

  /** What the plugin can fetch: None where a lookup fails; the numbers as int64. */
  datatype WeightClaimView = WeightClaimView(bufferName: string, shardIndex: Option<int>)
  datatype BufferView = BufferView(capacity: Capacity, numShards: Option<int>)
  datatype PluginClaim = PluginClaim(name: string, resourceName: Option<string>,
                                     weightClaim: Option<WeightClaimView>, buffer: Option<BufferView>,
                                     totalVram: Option<nat>)

  /** Go's conversions `int32(x)` and `uint64(x)`. */
  function Int32(x: int): int {
    (x + 0x8000_0000) % 0x1_0000_0000 - 0x8000_0000
  }

  function Uint64(x: int): nat {
    x % 0x1_0000_0000_0000_0000
  }

  function RealName(c: PluginClaim): string {
    if c.resourceName.Some? && c.resourceName.value != "" then c.resourceName.value else c.name
  }

  function ShardIndexOf(c: PluginClaim): int {
    if c.weightClaim.Some? && c.weightClaim.value.shardIndex.Some? then Int32(c.weightClaim.value.shardIndex.value)
    else -1
  }

  predicate FetchesBuffer(c: PluginClaim) {
    c.weightClaim.Some? && c.weightClaim.value.bufferName != "" && c.buffer.Some?
  }

  function TotalShardsOf(c: PluginClaim): int {
    if FetchesBuffer(c) && c.buffer.value.numShards.Some? then Int32(c.buffer.value.numShards.value) else 0
  }

  /** The plugin's own share: floor division in uint64. */
  function PluginSize(capacity: Capacity, totalShards: int): nat {
    if !capacity.Value? then 0
    else if totalShards > 0 then Uint64(capacity.bytes) / totalShards
    else Uint64(capacity.bytes)
  }

  function SizeOf(c: PluginClaim): nat {
    if FetchesBuffer(c) then PluginSize(c.buffer.value.capacity, TotalShardsOf(c)) else 0
  }

  function RequestOf(c: PluginClaim): StageRequest {
    StageRequest(RealName(c), if c.weightClaim.Some? then c.weightClaim.value.bufferName else "",
                 SizeOf(c), ShardIndexOf(c), TotalShardsOf(c))
  }

  predicate TooLarge(c: PluginClaim) {
    FetchesBuffer(c) && c.totalVram.Some? && SizeOf(c) > c.totalVram.value
  }

  // ----- What the request says -----

  /** `y` is the int32 that agrees with x modulo 2^32. */
  predicate WrapsTo32(x: int, y: int) {
    -0x8000_0000 <= y < 0x8000_0000 && (x - y) % 0x1_0000_0000 == 0
  }

  /** `y` is the uint64 that agrees with x modulo 2^64. */
  predicate WrapsTo64(x: int, y: int) {
    0 <= y < 0x1_0000_0000_0000_0000 && (x - y) % 0x1_0000_0000_0000_0000 == 0
  }

  /** The shard count that the plugin finds: only where it can fetch the buffer of the claim. */
  predicate CountsShards(c: PluginClaim, n: int) {
    if c.weightClaim.Some? && c.weightClaim.value.bufferName != "" && c.buffer.Some? && c.buffer.value.numShards.Some?
    then WrapsTo32(c.buffer.value.numShards.value, n) else n == 0
  }

  /** The bytes of the capacity that the plugin finds. */
  predicate HasCapacity(c: PluginClaim, bytes: int) {
    && c.weightClaim.Some? && c.weightClaim.value.bufferName != "" && c.buffer.Some? && c.buffer.value.capacity.Value?
    && WrapsTo64(c.buffer.value.capacity.bytes, bytes)
  }

  /** `share` is the n-th part of the bytes, rounded down; all of them where there are no shards. */
  predicate IsPluginShare(share: nat, bytes: int, n: int) {
    if n > 0 then share * n <= bytes < (share + 1) * n else share == bytes
  }

  /** The request names the ResourceClaim, or else the claim as it is called; its buffer; the explicit shard index or
      none; the shard count; and the share of the capacity, or none. */
  ghost predicate Requests(c: PluginClaim, req: StageRequest) {
    && (if c.resourceName.Some? && c.resourceName.value != "" then req.claim == c.resourceName.value
        else req.claim == c.name)
    && (if c.weightClaim.Some? then req.buffer == c.weightClaim.value.bufferName else req.buffer == "")
    && (if c.weightClaim.Some? && c.weightClaim.value.shardIndex.Some?
        then WrapsTo32(c.weightClaim.value.shardIndex.value, req.shardIndex) else req.shardIndex == -1)
    && CountsShards(c, req.totalShards)
    && (forall bytes :: HasCapacity(c, bytes) ==> IsPluginShare(req.size, bytes, req.totalShards))
    && ((forall bytes :: !HasCapacity(c, bytes)) ==> req.size == 0)
  }

  lemma Wraps32(x: int, y: int)
    ensures WrapsTo32(x, y) <==> y == Int32(x)
  {}

  lemma Wraps64(x: int, y: int)
    ensures WrapsTo64(x, y) <==> y == Uint64(x)
  {}

  lemma ShareIs(bytes: nat, n: int, share: nat)
    ensures IsPluginShare(share, bytes, n) <==> share == if n > 0 then bytes / n else bytes
  {
    if n > 0 {
      assert bytes == bytes / n * n + bytes % n;
      assert (share + 1) * n == share * n + n;
      if share * n <= bytes < (share + 1) * n {
        DivModUnique(bytes, share, bytes - share * n, n);
      }
    }
  }

  lemma RequestMeans(c: PluginClaim)
    ensures Requests(c, RequestOf(c))
  {
    var req := RequestOf(c);
    if c.weightClaim.Some? && c.weightClaim.value.shardIndex.Some? {
      Wraps32(c.weightClaim.value.shardIndex.value, req.shardIndex);
    }
    CountIs(c);
    CapacityIs(c);
    forall bytes | HasCapacity(c, bytes)
      ensures IsPluginShare(req.size, bytes, req.totalShards)
    {
      ShareIs(bytes, req.totalShards, req.size);
    }
    if FetchesBuffer(c) && c.buffer.value.capacity.Value? {
      assert HasCapacity(c, Uint64(c.buffer.value.capacity.bytes));
    }
    hide HasCapacity, CountsShards, IsPluginShare, WrapsTo32, Int32, Uint64;
  }

  lemma CountIs(c: PluginClaim)
    ensures CountsShards(c, TotalShardsOf(c))
    ensures forall n :: CountsShards(c, n) ==> n == TotalShardsOf(c)
  {
    forall n
      ensures CountsShards(c, n) <==> n == TotalShardsOf(c)
    {
      if FetchesBuffer(c) && c.buffer.value.numShards.Some? {
        Wraps32(c.buffer.value.numShards.value, n);
      }
    }
  }

  lemma CapacityIs(c: PluginClaim)
    ensures forall bytes :: HasCapacity(c, bytes) <==>
              FetchesBuffer(c) && c.buffer.value.capacity.Value? && bytes == Uint64(c.buffer.value.capacity.bytes)
  {
    if FetchesBuffer(c) && c.buffer.value.capacity.Value? {
      forall bytes
        ensures HasCapacity(c, bytes) <==> bytes == Uint64(c.buffer.value.capacity.bytes)
      {
        Wraps64(c.buffer.value.capacity.bytes, bytes);
      }
    }
    hide Uint64, WrapsTo64;
  }

  /** Of n shards each needs more than the limit. */
  predicate Exceeds(bytes: int, n: int, limit: nat) {
    if n > 0 then bytes >= (limit + 1) * n else bytes > limit
  }

  /** A claim is turned away exactly when its share, in whole bytes, does not fit into the memory of the node, where the
      plugin can read that: with n shards, when the capacity has n bytes for each byte of the memory and n more. */
  lemma TooLargeIff(c: PluginClaim, n: int)
    requires CountsShards(c, n)
    ensures TooLarge(c) <==>
            c.totalVram.Some? && exists bytes :: HasCapacity(c, bytes) && Exceeds(bytes, n, c.totalVram.value)
  {
    CountIs(c);
    CapacityIs(c);
    if FetchesBuffer(c) && c.buffer.value.capacity.Value? && c.totalVram.Some? {
      var bytes := Uint64(c.buffer.value.capacity.bytes);
      assert HasCapacity(c, bytes);
      if n > 0 {
        ExceedsIff(bytes, n, c.totalVram.value);
      }
    }
    hide HasCapacity, CountsShards, Int32, Uint64;
  }

  lemma ExceedsIff(bytes: nat, n: nat, limit: nat)
    requires n > 0
    ensures bytes / n > limit <==> bytes >= (limit + 1) * n
  {
    var q := bytes / n;
    assert bytes == q * n + bytes % n;
    if q > limit {
      assert q * n == (limit + 1) * n + (q - limit - 1) * n;
    } else {
      assert (limit + 1) * n == q * n + (limit - q) * n + n;
    }
  }

  function StageEvents(claims: seq<PluginClaim>, answers: seq<StageAnswer>): seq<Event>
    requires |claims| == |answers|
  {
    seq(|claims|, i requires 0 <= i < |claims| => Stage(RequestOf(claims[i]), answers[i]))
  }

  /** The stage call i of the run succeeds. */
  ghost predicate StagedOk(s: State, es: seq<Event>, i: nat)
    requires Sound(s)
  {
    i < |es| && es[i].Stage? && PossibleRun(s, es[..i]) && StageOk(Run(s, es[..i]), es[i].req, es[i].answer)
  }

  /** The first k claims fit the node and are staged. */
  ghost predicate AllStaged(s: State, es: seq<Event>, claims: seq<PluginClaim>, k: nat)
    requires Sound(s) && k <= |claims|
  {
    forall i :: 0 <= i < k ==> !TooLarge(claims[i]) && StagedOk(s, es, i)
  }

  /** The fields of the stage request, step by step; `tooLarge` when the share exceeds the node's memory. */
  method BuildRequest(claim: PluginClaim) returns (req: StageRequest, tooLarge: bool)
    ensures req == RequestOf(claim) && tooLarge == TooLarge(claim)
  {
    var shardIndex, totalShards, sizeBytes, bufferName := -1, 0, 0, "";
    tooLarge := false;
    if claim.weightClaim.Some? {
      var wc := claim.weightClaim.value;
      bufferName := wc.bufferName;
      if wc.shardIndex.Some? {
        shardIndex := Int32(wc.shardIndex.value);
      }
      if bufferName != "" && claim.buffer.Some? {
        var wb := claim.buffer.value;
        if wb.numShards.Some? {
          totalShards := Int32(wb.numShards.value);
        }
        if wb.capacity.Value? {
          sizeBytes := Uint64(wb.capacity.bytes);
          if totalShards > 0 {
            sizeBytes := sizeBytes / totalShards;
          }
        }
        tooLarge := claim.totalVram.Some? && sizeBytes > claim.totalVram.value;
      }
    }
    req := StageRequest(RealName(claim), bufferName, sizeBytes, shardIndex, totalShards);
  }

  /** The call to the local driver for claim i of the run, which fits. */
  method StageClaim(d: Driver, req: StageRequest, answer: StageAnswer,
                    ghost s: State, ghost es: seq<Event>, ghost claims: seq<PluginClaim>, ghost i: nat)
    returns (ok: bool)
    requires d.Valid() && Sound(s) && PossibleRun(s, es) && i < |es| == |claims| && es[i] == Stage(req, answer)
    requires !TooLarge(claims[i]) && PreparedUpTo(s, es, claims, d.Abstract(), true, i)
    modifies d
    ensures d.Valid() && PreparedUpTo(s, es, claims, d.Abstract(), ok, i + 1)
  {
    RunUpTo(s, es, i);
    ok := d.NodeStageWeight(req, answer);
  }

  /** Claim after claim is staged; the first one that is too large or fails ends the call, and what was
      staged before it stays. `made` counts the stage calls that were made. */
  method NodePrepareResources(d: Driver, claims: seq<PluginClaim>, answers: seq<StageAnswer>)
    returns (ok: bool, made: nat)
    requires |claims| == |answers| && d.Valid()
    requires PossibleRun(d.Abstract(), StageEvents(claims, answers))
    modifies d
    ensures d.Valid() && (ok ==> made == |claims|)
    ensures PreparedUpTo(old(d.Abstract()), StageEvents(claims, answers), claims, d.Abstract(), ok, made)
  {
    ok, made := StageClaims(d, claims, answers, d.Abstract(), StageEvents(claims, answers));
  }

  /** The loop of the call, over the run `es` from `s`. */
  method StageClaims(d: Driver, claims: seq<PluginClaim>, answers: seq<StageAnswer>, ghost s: State,
                     ghost es: seq<Event>)
    returns (ok: bool, made: nat)
    requires |claims| == |answers| == |es| && d.Valid() && Sound(s) && d.Abstract() == s && PossibleRun(s, es)
    requires forall i :: 0 <= i < |claims| ==> es[i] == Stage(RequestOf(claims[i]), answers[i])
    modifies d
    ensures d.Valid() && (ok ==> made == |claims|) && PreparedUpTo(s, es, claims, d.Abstract(), ok, made)
  {
    assert es[..0] == [];
    made := 0;
    while made < |claims|
      invariant made <= |claims| && d.Valid() && PreparedUpTo(s, es, claims, d.Abstract(), true, made)
    {
      var req, tooLarge := BuildRequest(claims[made]);
      if tooLarge {
        return false, made;
      }
      ok := StageClaim(d, req, answers[made], s, es, claims, made);
      made := made + 1;
      if !ok {
        return false, made;
      }
    }
    ok := true;
  }

  /** After `made` stage calls from `s` the driver is in `t`: all of them went well, or the last failed, or
      the next claim is too large. */
  ghost predicate PreparedUpTo(s: State, es: seq<Event>, claims: seq<PluginClaim>, t: State, ok: bool, made: nat)
    requires Sound(s) && |es| == |claims|
  {
    && made <= |claims| && PossibleRun(s, es[..made]) && t == Run(s, es[..made])
    && (if ok then AllStaged(s, es, claims, made)
        else (made < |claims| && TooLarge(claims[made]) && AllStaged(s, es, claims, made))
             || (made > 0 && !StagedOk(s, es, made - 1) && AllStaged(s, es, claims, made - 1)))
  }

  function UnstageEvents(claims: seq<PluginClaim>, unmapped: seq<set<nat>>): seq<Event>
    requires |claims| == |unmapped|
  {
    seq(|claims|, i requires 0 <= i < |claims| => Unstage(RealName(claims[i]), unmapped[i]))
  }

  lemma UnstageRun(s: State, es: seq<Event>)
    requires Sound(s) && forall i :: 0 <= i < |es| ==> es[i].Unstage?
    ensures PossibleRun(s, es)
    decreases es
  {
    if es != [] {
      SoundStep(s, es[0]);
      UnstageRun(Next(s, es[0]), es[1..]);
    }
  }

  /** Claim after claim is unstaged; failures are logged only. */
  method NodeUnprepareResources(d: Driver, claims: seq<PluginClaim>, unmapped: seq<set<nat>>)
    requires |claims| == |unmapped| && d.Valid()
    modifies d
    ensures d.Valid() && PossibleRun(old(d.Abstract()), UnstageEvents(claims, unmapped))
    ensures d.Abstract() == Run(old(d.Abstract()), UnstageEvents(claims, unmapped))
  {
    ghost var start, events := d.Abstract(), UnstageEvents(claims, unmapped);
    UnstageRun(start, events);
    assert events[..0] == [];
    for i := 0 to |claims|
      invariant d.Valid() && PossibleRun(start, events[..i]) && d.Abstract() == Run(start, events[..i])
    {
      RunUpTo(start, events, i);
      var ok := d.NodeUnstageWeight(RealName(claims[i]), unmapped[i]);
    }
    assert events[..|claims|] == events;
  }

  // ----- Unpreparing undoes preparing -----

  lemma {:induction false} RunBoth(s: State, a: seq<Event>, b: seq<Event>)
    requires Sound(s) && PossibleRun(s, a + b)
    ensures PossibleRun(s, a) && Sound(Run(s, a)) && PossibleRun(Run(s, a), b)
    ensures Run(s, a + b) == Run(Run(s, a), b)
    decreases |a|
  {
    if a == [] {
      assert a + b == b;
    } else {
      assert a + b == [a[0]] + (a[1..] + b);
      RunFrom(s, a[0], a[1..] + b);
      RunBoth(Next(s, a[0]), a[1..], b);
    }
    hide Possible, Next, Sound, WellNamed;
  }

  /** In `t` the claims other than these are as in `s`. */
  ghost predicate OthersKept(s: State, t: State, names: set<string>) {
    forall c :: c !in names ==> (c in t.claims <==> c in s.claims) && (c in s.claims ==> t.claims[c] == s.claims[c])
  }

  lemma {:induction false} StagesTouch(s: State, es: seq<Event>, names: set<string>)
    requires Sound(s) && PossibleRun(s, es)
    requires forall i :: 0 <= i < |es| ==> es[i].Stage? && es[i].req.claim in names
    ensures OthersKept(s, Run(s, es), names)
    decreases es
  {
    if es != [] {
      SoundStep(s, es[0]);
      StageTouches(s, es[0]);
      StagesTouch(Next(s, es[0]), es[1..], names);
    }
    hide Next, Possible, Sound;
  }

  lemma StageTouches(s: State, e: Event)
    requires Sound(s) && Possible(s, e) && e.Stage?
    ensures OthersKept(s, Next(s, e), {e.req.claim})
  {}

  lemma UnstageForgets(s: State, e: Event)
    requires Sound(s) && Possible(s, e) && e.Unstage?
    ensures OthersKept(s, Next(s, e), {e.claim}) && e.claim !in Next(s, e).claims
  {}

  lemma {:induction false} UnstagesForget(s: State, es: seq<Event>, names: set<string>)
    requires Sound(s) && PossibleRun(s, es)
    requires forall i :: 0 <= i < |es| ==> es[i].Unstage? && es[i].claim in names
    ensures OthersKept(s, Run(s, es), names)
    ensures forall c :: c !in s.claims ==> c !in Run(s, es).claims
    ensures forall i :: 0 <= i < |es| ==> es[i].claim !in Run(s, es).claims
    decreases es
  {
    if es != [] {
      SoundStep(s, es[0]);
      UnstageForgets(s, es[0]);
      UnstagesForget(Next(s, es[0]), es[1..], names);
      assert forall i :: 1 <= i < |es| ==> es[i] == es[1..][i - 1];
    }
    hide Next, Possible, Sound;
  }

  /** The stagings and the unstagings are for the same claims. */
  ghost predicate ForClaims(a: seq<Event>, b: seq<Event>, names: set<string>) {
    && (forall i :: 0 <= i < |a| ==> a[i].Stage? && a[i].req.claim in names)
    && (forall i :: 0 <= i < |b| ==> b[i].Unstage? && b[i].claim in names)
    && (forall c :: c in names ==> exists i :: 0 <= i < |b| && b[i].claim == c)
  }

  lemma {:induction false} ClaimsBack(s: State, a: seq<Event>, b: seq<Event>, names: set<string>)
    requires Sound(s) && PossibleRun(s, a + b) && ForClaims(a, b, names) && names !! s.claims.Keys
    ensures Run(s, a + b).claims == s.claims
  {
    RunBoth(s, a, b);
    StagesTouch(s, a, names);
    UnstagesForget(Run(s, a), b, names);
    hide Run, PossibleRun, Sound;
    forall c
      ensures c in Run(s, a + b).claims <==> c in s.claims
      ensures c in s.claims ==> Run(s, a + b).claims[c] == s.claims[c]
    {
      if c in names {
        var i :| 0 <= i < |b| && b[i].claim == c;
        assert b[i].claim !in Run(s, a + b).claims;
      }
    }
  }

  lemma EventsForClaims(claims: seq<PluginClaim>, answers: seq<StageAnswer>, unmapped: seq<set<nat>>)
    requires |claims| == |answers| == |unmapped|
    ensures ForClaims(StageEvents(claims, answers), UnstageEvents(claims, unmapped),
                      set i | 0 <= i < |claims| :: RealName(claims[i]))
  {
    forall i | 0 <= i < |claims|
      ensures UnstageEvents(claims, unmapped)[i].claim == RealName(claims[i])
    {}
    hide RealName, SizeOf, ShardIndexOf, TotalShardsOf;
  }

  /** Preparing claims and unpreparing them again, when every allocation succeeds and none of them was known or is
      staged twice, leaves the claims and every reference count as they were. */
  lemma {:induction false} UnprepareUndoesPrepare(s: State, claims: seq<PluginClaim>, answers: seq<StageAnswer>,
                                                  unmapped: seq<set<nat>>, id: string)
    requires |claims| == |answers| == |unmapped| && Sound(s) && Tree(s) && IsStagedId(id) && Surplus(s, id) >= 0
    requires forall i :: 0 <= i < |claims| ==> RealName(claims[i]) !in s.claims
    requires PossibleRun(s, StageEvents(claims, answers) + UnstageEvents(claims, unmapped))
    requires Throughout(s, StageEvents(claims, answers) + UnstageEvents(claims, unmapped),
                        (t, e) => !FailsToAllocate(t, e) && !Restages(t, e))
    ensures var t := Run(s, StageEvents(claims, answers) + UnstageEvents(claims, unmapped));
            && t.claims == s.claims && RefCount(t, id) == RefCount(s, id) && (id in t.table <==> id in s.table)
  {
    hide *;
    var a, b := StageEvents(claims, answers), UnstageEvents(claims, unmapped);
    EventsForClaims(claims, answers, unmapped);
    ClaimsBack(s, a, b, set i | 0 <= i < |claims| :: RealName(claims[i]));
    SameClaimsSameCounts(s, a + b, id);
  }

  // ----- The plugin's share against the operator's -----

  /** What the driver stages for a shard when the plugin asks. */
  function DriverSize(capacity: nat, n: nat): nat
    requires n > 0
  {
    StagedSize(StageRequest("", "", PluginSize(Value(capacity), n), 0, n))
  }

  /** How much smaller the plugin's share is than the operator's even split. */
  function Gap(capacity: nat, n: nat, i: nat): int
    requires n > 0
  {
    EvenSize(capacity, n, i) - PluginSize(Value(capacity), n)
  }

  function GapSum(capacity: nat, n: nat, k: nat): int
    requires n > 0
  {
    if k == 0 then 0 else GapSum(capacity, n, k - 1) + Gap(capacity, n, k - 1)
  }

  /** Capacities and shard counts that fit the wire types. */
  predicate OnTheWire(capacity: nat, n: nat) {
    0 < n < 0x8000_0000 && capacity < 0x8000_0000_0000_0000
  }

  lemma {:induction false} GapSumClosed(capacity: nat, n: nat, k: nat)
    requires OnTheWire(capacity, n) && k <= n
    ensures GapSum(capacity, n, k) == Min(k, capacity % n)
  {
    if k > 0 {
      GapSumClosed(capacity, n, k - 1);
    }
  }

  /** Per shard the plugin's share falls short of the operator's by 0 or 1, in total by the remainder; all
      agree exactly when the shard count divides the capacity. */
  lemma PluginFallsShort(capacity: nat, n: nat)
    requires OnTheWire(capacity, n)
    ensures forall i :: 0 <= i < n ==> 0 <= Gap(capacity, n, i) <= 1
    ensures GapSum(capacity, n, n) == capacity % n
    ensures (forall i :: 0 <= i < n ==> Gap(capacity, n, i) == 0) <==> capacity % n == 0
  {
    GapSumClosed(capacity, n, n);
    assert Gap(capacity, n, 0) == if 0 < capacity % n then 1 else 0;
  }

  /** What the driver then stages stays within the operator's shares exactly when each shard has a byte:
      below that the plugin's 0 means the driver's default of 10 GiB. */
  lemma StagedWithinShareIff(capacity: nat, n: nat)
    requires OnTheWire(capacity, n)
    ensures (forall i :: 0 <= i < n ==> DriverSize(capacity, n) <= EvenSize(capacity, n, i)) <==> capacity >= n
    ensures capacity < n ==> DriverSize(capacity, n) == DEFAULT_SIZE
  {
    var q := capacity / n;
    assert PluginSize(Value(capacity), n) == q;
    assert capacity == q * n + capacity % n;
    if capacity >= n {
      FarMultiple(q, n);
      assert q >= 1;
    } else {
      DivModUnique(capacity, 0, capacity, n);
      assert EvenSize(capacity, n, 0) <= 1;
    }
  }

  /** The end of the whole half-floats of shard i, in the whole buffer. */
  function EvenEnd(capacity: nat, n: nat, i: nat): int
    requires n > 0
  {
    EvenOffset(capacity, n, i) + 2 * (EvenSize(capacity, n, i) / 2)
  }

  /** A scatter writes shard i at its offset in the whole buffer, but into the target's own shard buffer. For buffers
      staged by the plugin that range is mapped for shard 0 (save one byte of an odd share that is a multiple of an
      odd granularity), and for another shard exactly if it ends within one granule of the whole buffer, or if the
      share is 0 and the driver has mapped its default size instead. */
  lemma ScatterFitsShardBufferIff(capacity: nat, n: nat, i: nat, gran: nat)
    requires OnTheWire(capacity, n) && i < n && gran > 0
    ensures EvenEnd(capacity, n, i) <= RoundUp(DriverSize(capacity, n), gran) <==>
            if i == 0 then !((capacity / n) % 2 == 1 && (capacity / n) % gran == 0 && capacity % n > 0)
            else EvenEnd(capacity, n, i) <= gran || capacity < n
  {
    var q, r := capacity / n, capacity % n;
    EndOf(capacity, n, i);
    RoundUpBounds(DriverSize(capacity, n), gran);
    hide DriverSize, EvenEnd, RoundUp, EvenOffset, EvenSize;
    if q > 0 {
      ShareFits(q, r, i, gran, RoundUp(q, gran));
    }
  }

  /** The end of the range in terms of the floor share q and the remainder, and what the driver stages. */
  lemma EndOf(capacity: nat, n: nat, i: nat)
    requires OnTheWire(capacity, n) && i < n
    ensures var q, r := capacity / n, capacity % n;
            && EvenEnd(capacity, n, i)
               == i * q + (if r > 0 then Min(i, r) else 0) + 2 * ((q + if i < r then 1 else 0) / 2)
            && (q == 0 ==> EvenEnd(capacity, n, i) <= i)
            && DriverSize(capacity, n) == (if q == 0 then DEFAULT_SIZE else q) && (capacity < n <==> q == 0)
  {
    var q, r := capacity / n, capacity % n;
    GoOfNat(capacity, n);
    EvenOffsetClosed(capacity, n, i);
    ShareZeroIff(capacity, n);
    StagedShare(capacity, n);
    hide DriverSize, EvenOffset, GoDiv, GoMod;
    ZeroShare(i, q, r);
  }

  lemma GoOfNat(a: nat, n: nat)
    requires n > 0
    ensures GoDiv(a, n) == a / n && GoMod(a, n) == a % n
  {}

  lemma ZeroShare(i: nat, q: nat, r: nat)
    ensures q == 0 ==> i * q + (if r > 0 then Min(i, r) else 0) + 2 * ((q + if i < r then 1 else 0) / 2) <= i
  {}

  lemma StagedShare(capacity: nat, n: nat)
    requires OnTheWire(capacity, n)
    ensures DriverSize(capacity, n) == if capacity / n == 0 then DEFAULT_SIZE else capacity / n
  {}

  lemma ShareZeroIff(capacity: nat, n: nat)
    requires n > 0
    ensures capacity < n <==> capacity / n == 0
  {
    if capacity < n {
      DivModUnique(capacity, 0, capacity, n);
    }
  }

  lemma ShareFits(q: nat, r: nat, i: nat, gran: nat, mapped: nat)
    requires q > 0 && gran > 0 && mapped == RoundUp(q, gran)
    ensures var size := q + if i < r then 1 else 0;
            var end := i * q + (if r > 0 then Min(i, r) else 0) + 2 * (size / 2);
            end <= mapped <==> if i == 0 then !(q % 2 == 1 && q % gran == 0 && r > 0) else end <= gran
  {
    RoundUpBounds(q, gran);
    LeastGranule(q, gran);
    FarMultiple(i, q);
    FarMultiple(i - 1, q);
    assert i * q == (i - 1) * q + q;
    if q == gran {
      DivModUnique(q, 1, 0, gran);
    }
    EndFits(q, r, i, i * q, gran, mapped, q % gran == 0);
  }

  /** The same about the product `p` of i and q, and whether q is a multiple of the granularity. */
  lemma EndFits(q: nat, r: nat, i: nat, p: nat, gran: nat, mapped: nat, multiple: bool)
    requires q > 0 && gran > 0 && q <= mapped < q + gran && mapped >= gran
    requires (q < gran ==> mapped == gran) && (mapped == q <==> multiple) && (q == gran ==> multiple)
    requires if i == 0 then p == 0 else if i == 1 then p == q else p >= 2 * q
    ensures var size := q + if i < r then 1 else 0;
            var end := p + (if r > 0 then Min(i, r) else 0) + 2 * (size / 2);
            end <= mapped <==> if i == 0 then !(q % 2 == 1 && multiple && r > 0) else end <= gran
  {}

  /** One granule is mapped at least, and exactly one for a smaller size. */
  lemma LeastGranule(q: nat, gran: nat)
    requires q > 0 && gran > 0
    ensures RoundUp(q, gran) >= gran && (q < gran ==> RoundUp(q, gran) == gran)
  {
    if q < gran {
      DivModUnique(q, 0, q, gran);
    } else {
      RoundUpBounds(q, gran);
    }
  }
}
