/** The key grammar of the driver's buffer table: a staged buffer is tracked as `b` or
    `b__shard_i`, a copy relocated to GPU g as `<staged key>_gpu<g>`. */
module Keys {
  import opened Text

  datatype Key = Key(base: string, shard: Option<nat>, gpu: Option<int>) {
    predicate Valid() {
      Free('_', base)
    }
  }

  const SHARD_SEPARATOR := "__shard_"
  const GPU_SEPARATOR := "_gpu"

  /** The id under which a request is staged; the client computes the same text. */
  function EffectiveId(buffer: string, shardIndex: int, totalShards: int): string {
    if shardIndex >= 0 && totalShards > 0 then buffer + SHARD_SEPARATOR + Decimal(shardIndex) else buffer
  }

  function RelocationKey(id: string, gpu: int): string {
    id + GPU_SEPARATOR + Show(gpu)
  }

  /** The id a scatter source addresses on the node of shard `shardIndex`. */
  function ScatterTargetId(buffer: string, shardIndex: int): string {
    if shardIndex >= 0 then SplitHead(buffer, SHARD_SEPARATOR) + SHARD_SEPARATOR + Decimal(shardIndex) else buffer
  }

  function StagedKey(buffer: string, shardIndex: int, totalShards: int): Key {
    Key(buffer, if shardIndex >= 0 && totalShards > 0 then Some(shardIndex) else None, None)
  }

  function ShardSuffix(shard: Option<nat>): string {
    if shard.None? then "" else SHARD_SEPARATOR + Decimal(shard.value)
  }

  function GpuSuffix(gpu: Option<int>): string {
    if gpu.None? then "" else GPU_SEPARATOR + Show(gpu.value)
  }

  function Render(k: Key): string {
    k.base + (ShardSuffix(k.shard) + GpuSuffix(k.gpu))
  }

  lemma RenderStaged(buffer: string, shardIndex: int, totalShards: int)
    ensures Render(StagedKey(buffer, shardIndex, totalShards)) == EffectiveId(buffer, shardIndex, totalShards)
  {
    if shardIndex >= 0 && totalShards > 0 {
      assert buffer + (SHARD_SEPARATOR + Decimal(shardIndex) + "") == buffer + SHARD_SEPARATOR + Decimal(shardIndex);
    }
  }

  lemma RenderRelocated(k: Key, gpu: int)
    requires k.gpu.None?
    ensures Render(k.(gpu := Some(gpu))) == RelocationKey(Render(k), gpu)
  {
    var s := ShardSuffix(k.shard);
    assert s + "" == s;
    assert k.base + (s + (GPU_SEPARATOR + Show(gpu))) == k.base + s + GPU_SEPARATOR + Show(gpu);
  }

  lemma ShowInjective(i: int, j: int)
    requires Show(i) == Show(j)
    ensures i == j
  {
    ParseShow(i);
    ParseShow(j);
  }

  /** The second character tells whether a suffix starts with a shard part. */
  lemma SecondCharacter(shard: Option<nat>, rest: string)
    requires rest == "" || GPU_SEPARATOR <= rest
    ensures var t := ShardSuffix(shard) + rest; shard.Some? <==> |t| > 1 && t[1] == '_'
  {
    if shard.None? {
      assert ShardSuffix(shard) + rest == rest;
    }
  }

  lemma AfterSeparator(separator: string, a: string, b: string, a': string, b': string)
    requires separator + a + b == separator + a' + b'
    ensures a + b == a' + b'
  {
    assert (separator + a + b)[|separator|..] == a + b;
    assert (separator + a' + b')[|separator|..] == a' + b';
  }

  lemma NumeralCut(i: nat, rest: string, j: nat, rest': string)
    requires rest == "" || rest[0] == '_'
    requires rest' == "" || rest'[0] == '_'
    requires Decimal(i) + rest == Decimal(j) + rest'
    ensures i == j && rest == rest'
  {
    CutUnique(Decimal(i), rest, Decimal(j), rest', '_');
    ShowInjective(i, j);
  }

  /** Equal suffixes come from equal shard and GPU parts; `rest` lets the second text be
      longer than its own suffix. */
  lemma SuffixUnique(k: Key, shard: Option<nat>, rest: string)
    requires rest == "" || GPU_SEPARATOR <= rest
    requires ShardSuffix(k.shard) + GpuSuffix(k.gpu) == ShardSuffix(shard) + rest
    ensures k.shard == shard && GpuSuffix(k.gpu) == rest
  {
    var own := GpuSuffix(k.gpu);
    SecondCharacter(k.shard, own);
    SecondCharacter(shard, rest);
    if shard.None? {
      assert ShardSuffix(shard) + own == own && ShardSuffix(shard) + rest == rest;
    } else {
      AfterSeparator(SHARD_SEPARATOR, Decimal(k.shard.value), own, Decimal(shard.value), rest);
      NumeralCut(k.shard.value, own, shard.value, rest);
    }
  }

  /** The four key shapes are pairwise distinct and uniquely decodable. */
  lemma RenderInjective(k: Key, k': Key)
    requires k.Valid() && k'.Valid()
    requires Render(k) == Render(k')
    ensures k == k'
  {
    var s, s' := ShardSuffix(k.shard) + GpuSuffix(k.gpu), ShardSuffix(k'.shard) + GpuSuffix(k'.gpu);
    CutUnique(k.base, s, k'.base, s', '_');
    SuffixUnique(k, k'.shard, GpuSuffix(k'.gpu));
    if k.gpu.Some? && k'.gpu.Some? {
      var g, g' := Show(k.gpu.value), Show(k'.gpu.value);
      assert (GPU_SEPARATOR + g)[|GPU_SEPARATOR|..] == g && (GPU_SEPARATOR + g')[|GPU_SEPARATOR|..] == g';
      ShowInjective(k.gpu.value, k'.gpu.value);
    }
  }

  /** The prefix test of a bulk release selects exactly the relocations of the released buffer:
      shard 1 never reaches shard 10, nor a buffer another one. */
  lemma ReleasePrefix(parent: Key, k: Key)
    requires parent.Valid() && k.Valid() && parent.gpu.None?
    ensures Render(parent) + GPU_SEPARATOR <= Render(k) <==>
            k.gpu.Some? && k == parent.(gpu := k.gpu)
  {
    var p := Render(parent) + GPU_SEPARATOR;
    if p <= Render(k) {
      PrefixDecoded(parent, k, Render(k)[|p|..]);
    }
    if k.gpu.Some? && k == parent.(gpu := k.gpu) {
      RenderRelocated(parent, k.gpu.value);
      assert Render(k) == p + Show(k.gpu.value);
    }
  }

  lemma PrefixDecoded(parent: Key, k: Key, rest: string)
    requires parent.Valid() && k.Valid() && parent.gpu.None?
    requires Render(k) == Render(parent) + GPU_SEPARATOR + rest
    ensures k.gpu.Some? && k == parent.(gpu := k.gpu)
  {
    var shard, tail := ShardSuffix(parent.shard), GPU_SEPARATOR + rest;
    assert Render(parent) == parent.base + shard;
    assert Render(k) == parent.base + (shard + tail);
    CutUnique(k.base, ShardSuffix(k.shard) + GpuSuffix(k.gpu), parent.base, shard + tail, '_');
    SuffixUnique(k, parent.shard, tail);
  }

  /** `split("__shard_")[0]` recovers the base of every staged id. */
  lemma SplitRecoversBase(k: Key)
    requires k.Valid() && k.gpu.None?
    ensures SplitHead(Render(k), SHARD_SEPARATOR) == k.base
  {
    SplitHeadOf(k.base, ShardSuffix(k.shard) + "", SHARD_SEPARATOR);
  }

  /** A scatter sent from the whole buffer or from any of its shards addresses, for shard i, the
      id under which shard i is staged on the target. */
  lemma ScatterTargetIsStagedId(source: Key, shardIndex: int, totalShards: int)
    requires source.Valid() && source.gpu.None? && shardIndex >= 0 && totalShards > 0
    ensures ScatterTargetId(Render(source), shardIndex) == EffectiveId(source.base, shardIndex, totalShards)
  {
    SplitRecoversBase(source);
  }

  /** The ids under which buffers are staged. */
  ghost predicate IsStagedId(id: string) {
    exists key: Key :: key.Valid() && key.gpu.None? && Render(key) == id
  }

  /** No staged id is a relocation key, and a relocation key determines its buffer and GPU. */
  lemma RelocationKeyUnique(id: string, gpu: int, id': string, gpu': int)
    requires IsStagedId(id) && IsStagedId(id')
    ensures RelocationKey(id, gpu) != id'
    ensures RelocationKey(id, gpu) == RelocationKey(id', gpu') ==> id == id' && gpu == gpu'
  {
    var k: Key :| k.Valid() && k.gpu.None? && Render(k) == id;
    var k': Key :| k'.Valid() && k'.gpu.None? && Render(k') == id';
    RenderRelocated(k, gpu);
    RenderRelocated(k', gpu');
    if RelocationKey(id, gpu) == id' {
      RenderInjective(k.(gpu := Some(gpu)), k');
      assert false;
    }
    if RelocationKey(id, gpu) == RelocationKey(id', gpu') {
      RenderInjective(k.(gpu := Some(gpu)), k'.(gpu := Some(gpu')));
    }
  }

  /** Which staged ids and which relocation keys the release of `id` selects. */
  lemma ReleaseSelects(id: string, id': string, gpu: int)
    requires IsStagedId(id) && IsStagedId(id')
    ensures !(id + GPU_SEPARATOR <= id')
    ensures id + GPU_SEPARATOR <= RelocationKey(id', gpu) <==> id == id'
  {
    var k: Key :| k.Valid() && k.gpu.None? && Render(k) == id;
    var k': Key :| k'.Valid() && k'.gpu.None? && Render(k') == id';
    ReleasePrefix(k, k');
    RenderRelocated(k', gpu);
    ReleasePrefix(k, k'.(gpu := Some(gpu)));
    if id == id' {
      RenderInjective(k, k');
    }
  }

  /** What names with underscores break: for any id and any buffer name, releasing the id selects the staged
      buffer, or a staged shard of it, exactly when the name starts with `<id>_gpu`. */
  lemma UnderscoresBreakRelease(id: string, name: string, shard: Option<nat>)
    ensures id + GPU_SEPARATOR <= Render(Key(name, shard, None)) <==> id + GPU_SEPARATOR <= name
    ensures id + GPU_SEPARATOR <= name ==> !Free('_', name)
  {
    var p, s := id + GPU_SEPARATOR, ShardSuffix(shard) + "";
    assert p[|id|] == '_' && p[|id| + 3] == 'u';
    assert Free('u', s);
    assert |name| <= |id| + 3 < |name + s| ==> (name + s)[|id| + 3] != 'u';
  }
}
