/** The shard that the plugin stages for a claim, against the one that the operator assigned to it. */
module ShardAssignment {
  import opened Text
  import opened Keys
  import opened DriverState
  import opened Shards
  import opened Plugin
  import C = ClaimController
  import B = BufferController

  /** What the plugin fetches of the same claim and buffer. */
  function Fetched(name: string, claim: C.Claim, spec: Spec, totalVram: Option<nat>): PluginClaim {
    var numShards := if spec.sharding.Some? then Some(spec.sharding.value.numShards) else None;
    PluginClaim(name, Some(name), Some(WeightClaimView(claim.bufferName, claim.shardIndex)),
                Some(BufferView(spec.capacity, numShards)), totalVram)
  }

  /** The field's type in the API is int32. */
  predicate IndexOnTheWire(claim: C.Claim) {
    claim.shardIndex.Some? ==> -0x8000_0000 <= claim.shardIndex.value < 0x8000_0000
  }

  /** The plugin stages the index that the operator resolved if and only if the claim names it explicitly: it does not
      read the rank annotations, which the operator takes otherwise. */
  lemma StagedAsAssignedIff(name: string, claim: C.Claim, spec: Spec, st: B.Status, totalVram: Option<nat>)
    requires C.Resolve(claim, spec, st).Resolved? && IndexOnTheWire(claim)
    ensures RequestOf(Fetched(name, claim, spec, totalVram)).shardIndex == C.Resolve(claim, spec, st).index <==>
            claim.shardIndex.Some?
  {
    if claim.shardIndex.Some? {
      SmallInt32(claim.shardIndex.value);
    }
  }

  lemma SmallInt32(x: int)
    requires -0x8000_0000 <= x < 0x8000_0000
    ensures Int32(x) == x
  {}

  /** A claim that was assigned by annotation is staged as the whole buffer, with the size of one share: all such
      claims on a node get the same memory. */
  lemma AnnotatedClaimsShare(name: string, claim: C.Claim, name': string, claim': C.Claim, spec: Spec, st: B.Status,
                             totalVram: Option<nat>, n: nat)
    requires claim.shardIndex.None? && claim'.shardIndex.None? && claim.bufferName == claim'.bufferName != ""
    requires spec.sharding.Some? && spec.sharding.value.numShards == n && 0 < n < 0x8000_0000
    requires C.Resolve(claim, spec, st).Resolved? && C.Resolve(claim', spec, st).Resolved?
    ensures var r := RequestOf(Fetched(name, claim, spec, totalVram));
            var r' := RequestOf(Fetched(name', claim', spec, totalVram));
            && Id(r) == Id(r') == claim.bufferName && r.size == r'.size == PluginSize(spec.capacity, n)
            && Id(r) != EffectiveId(claim.bufferName, C.Resolve(claim, spec, st).index, n)
  {
    SmallInt32(n);
    var i := C.Resolve(claim, spec, st).index;
    assert |EffectiveId(claim.bufferName, i, n)| > |claim.bufferName|;
  }
}
