/** How the operator cuts a buffer into shards: explicit tables, file patterns and even byte ranges. */
module Shards {
  import opened Arithmetic
  import opened Text

  datatype ShardFile = ShardFile(index: int, path: string, sizeBytes: int)
  datatype Sharding = Sharding(numShards: int, shardFiles: seq<ShardFile>, filePattern: string)

  /** `capacity` as `resource.ParseQuantity` reads it. */
  datatype Capacity = Absent | Malformed | Value(bytes: int)
  datatype Spec = Spec(capacity: Capacity, sourcePath: string, sharding: Option<Sharding>)

  datatype Path = Plain(path: string) | Join(dir: string, file: string)
  datatype Shard = Shard(index: int, path: Path, sizeBytes: int)

  /** The zero value that `make` fills a slice with. */
  const ZERO_SHARD := Shard(0, Plain(""), 0)

  datatype Failure = CountMismatch(files: nat, numShards: int) | IndexOutOfRange(index: int, numShards: int)
                   | NothingToSplit | InvalidCapacity
  datatype Discovery = Found(shards: seq<Shard>) | Failed(failure: Failure)

  // ----- Go's integer division truncates towards zero -----

  function GoDiv(a: int, b: int): int
    requires b > 0
  {
    if a >= 0 then a / b else -((-a) / b)
  }

  function GoMod(a: int, b: int): int
    requires b > 0
  {
    a - b * GoDiv(a, b)
  }

  // ----- Case 1: explicit files -----

  function Slot(f: ShardFile): Shard {
    Shard(f.index, Plain(f.path), f.sizeBytes)
  }

  predicate InRange(files: seq<ShardFile>, n: int) {
    forall k :: 0 <= k < |files| ==> 0 <= files[k].index < n
  }

  /** The first index that is out of range, at which the loop over the files stops. */
  function FirstStray(files: seq<ShardFile>, n: int): Option<int> {
    if files == [] then None
    else if !(0 <= files[0].index < n) then Some(files[0].index) else FirstStray(files[1..], n)
  }

  lemma {:induction false} StrayIff(files: seq<ShardFile>, n: int)
    ensures FirstStray(files, n).None? <==> InRange(files, n)
  {
    if files != [] {
      StrayIff(files[1..], n);
      assert InRange(files[1..], n) <==> forall k :: 1 <= k < |files| ==> 0 <= files[k].index < n by {
        assert forall k :: 1 <= k < |files| ==> files[k] == files[1..][k - 1];
        assert forall k :: 0 <= k < |files[1..]| ==> files[1..][k] == files[k + 1];
      }
    }
  }

  lemma {:induction false} StrayAt(files: seq<ShardFile>, n: int, k: nat)
    requires k < |files| && !(0 <= files[k].index < n) && forall j :: 0 <= j < k ==> 0 <= files[j].index < n
    ensures FirstStray(files, n) == Some(files[k].index)
  {
    if k > 0 {
      StrayAt(files[1..], n, k - 1);
    }
  }

  /** The last of the files with index i; -1 if there is none. */
  function LastWith(files: seq<ShardFile>, i: int): int {
    if files == [] then -1
    else if files[|files| - 1].index == i then |files| - 1 else LastWith(files[..|files| - 1], i)
  }

  /** The table: slot i holds the last file entry with index i, or the zero shard. */
  function TableOf(files: seq<ShardFile>, n: nat): seq<Shard> {
    seq(n, i requires 0 <= i < n => SlotAt(files, i))
  }

  function SlotAt(files: seq<ShardFile>, i: int): Shard {
    var k := LastWith(files, i);
    LastWithBound(files, i);
    if k < 0 then ZERO_SHARD else Slot(files[k])
  }

  lemma {:induction false} LastWithBound(files: seq<ShardFile>, i: int)
    ensures -1 <= LastWith(files, i) < |files|
    ensures LastWith(files, i) >= 0 ==> files[LastWith(files, i)].index == i
    ensures LastWith(files, i) < 0 <==> forall k :: 0 <= k < |files| ==> files[k].index != i
  {
    if files != [] && files[|files| - 1].index != i {
      LastWithBound(files[..|files| - 1], i);
      var front := files[..|files| - 1];
      assert forall k :: 0 <= k < |front| ==> front[k] == files[k];
    }
  }

  /** One more file fills its own slot and leaves the others. */
  lemma SlotAfter(files: seq<ShardFile>, k: nat, i: int)
    requires k < |files|
    ensures SlotAt(files[..k + 1], i) == if files[k].index == i then Slot(files[k]) else SlotAt(files[..k], i)
  {
    var front, more := files[..k], files[..k + 1];
    assert more[..|more| - 1] == front;
    LastWithBound(front, i);
  }

  method FromFiles(files: seq<ShardFile>, n: nat) returns (d: Discovery)
    requires |files| == n
    ensures d == match FirstStray(files, n)
                 case None => Found(TableOf(files, n))
                 case Some(i) => Failed(IndexOutOfRange(i, n))
  {
    var discovered := new Shard[n](_ => ZERO_SHARD);
    for k := 0 to |files|
      invariant forall j :: 0 <= j < k ==> 0 <= files[j].index < n
      invariant forall i :: 0 <= i < n ==> discovered[i] == SlotAt(files[..k], i)
    {
      var f := files[k];
      if f.index < 0 || f.index >= n {
        StrayAt(files, n, k);
        return Failed(IndexOutOfRange(f.index, n));
      }
      discovered[f.index] := Slot(f);
      forall i | 0 <= i < n
        ensures discovered[i] == SlotAt(files[..k + 1], i)
      {
        SlotAfter(files, k, i);
      }
    }
    assert files[..|files|] == files;
    StrayIff(files, n);
    assert discovered[..] == TableOf(files, n);
    return Found(discovered[..]);
  }

  // ----- The table is complete exactly when the indices are distinct -----

  predicate DistinctIndices(files: seq<ShardFile>) {
    forall j, k :: 0 <= j < k < |files| ==> files[j].index != files[k].index
  }

  function Indices(files: seq<ShardFile>): set<int> {
    set k | 0 <= k < |files| :: files[k].index
  }

  function UpTo(n: nat): (s: set<int>)
    ensures |s| == n && forall i :: i in s <==> 0 <= i < n
  {
    if n == 0 then {} else UpTo(n - 1) + {n - 1}
  }

  lemma {:induction false} IndicesSize(files: seq<ShardFile>)
    ensures |Indices(files)| <= |files|
    ensures |Indices(files)| == |files| <==> DistinctIndices(files)
  {
    if files != [] {
      var front := files[..|files| - 1];
      IndicesSize(front);
      IndicesGrow(files);
      DistinctGrows(files);
    }
  }

  lemma DistinctGrows(files: seq<ShardFile>)
    requires files != []
    ensures var front, last := files[..|files| - 1], files[|files| - 1];
            DistinctIndices(files) <==> DistinctIndices(front) && last.index !in Indices(front)
  {
    var front, last := files[..|files| - 1], files[|files| - 1];
    assert forall k :: 0 <= k < |front| ==> front[k] == files[k] && files[k].index in Indices(front);
    if DistinctIndices(front) && last.index !in Indices(front) {
      forall j, k | 0 <= j < k < |files|
        ensures files[j].index != files[k].index
      {
        assert k < |front| ==> front[j].index != front[k].index;
      }
    }
  }

  lemma IndicesGrow(files: seq<ShardFile>)
    requires files != []
    ensures Indices(files) == Indices(files[..|files| - 1]) + {files[|files| - 1].index}
  {
    var front := files[..|files| - 1];
    assert forall k :: 0 <= k < |front| ==> front[k] == files[k];
  }

  lemma SubsetOfSameSize(a: set<int>, b: set<int>)
    requires a <= b && |a| == |b|
    ensures a == b
  {
    assert b == a + (b - a);
    assert |b| == |a| + |b - a|;
  }

  /** Duplicates are not rejected. Every slot is filled (with its own index) exactly when the indices are
      pairwise distinct: as many entries as slots, all in range, so a repeated index leaves a hole. */
  lemma FilledIffDistinct(files: seq<ShardFile>, n: nat)
    requires |files| == n && InRange(files, n)
    ensures (forall i :: 0 <= i < n ==> LastWith(files, i) >= 0) <==> DistinctIndices(files)
    ensures DistinctIndices(files) ==> forall i :: 0 <= i < n ==> SlotAt(files, i).index == i
  {
    IndicesSize(files);
    assert Indices(files) <= UpTo(n);
    forall i
      ensures LastWith(files, i) >= 0 <==> i in Indices(files)
      ensures LastWith(files, i) >= 0 ==> SlotAt(files, i).index == i
    {
      LastWithBound(files, i);
    }
    if DistinctIndices(files) {
      SubsetOfSameSize(Indices(files), UpTo(n));
      assert forall i :: 0 <= i < n ==> i in Indices(files);
    } else {
      assert Indices(files) != UpTo(n);
      var hole :| hole in UpTo(n) && hole !in Indices(files);
      assert LastWith(files, hole) < 0;
    }
  }

  // ----- Case 2: a file pattern -----

  /** `%05d`. */
  function Padded(n: nat): string {
    var s := Decimal(n);
    if |s| >= 5 then s else seq(5 - |s|, _ => '0') + s
  }

  function ShardFileName(i: nat, n: nat): string {
    "model-" + Padded(i + 1) + "-of-" + Padded(n) + ".safetensors"
  }

  lemma {:induction false} LeadingZeros(k: nat, s: string)
    requires AllDigits(s)
    ensures AllDigits(seq(k, _ => '0') + s) && DigitsValue(seq(k, _ => '0') + s) == DigitsValue(s)
    decreases |s|
  {
    var z := seq(k, _ => '0') + s;
    if s != "" {
      LeadingZeros(k, s[..|s| - 1]);
      assert z[..|z| - 1] == seq(k, _ => '0') + s[..|s| - 1];
    } else {
      assert z == seq(k, _ => '0');
      OnlyZeros(k);
    }
  }

  lemma {:induction false} OnlyZeros(k: nat)
    ensures AllDigits(seq(k, _ => '0')) && DigitsValue(seq(k, _ => '0')) == 0
  {
    if k > 0 {
      OnlyZeros(k - 1);
      assert seq(k, _ => '0')[..k - 1] == seq(k - 1, _ => '0');
    }
  }

  lemma PaddedReads(n: nat)
    ensures AllDigits(Padded(n)) && DigitsValue(Padded(n)) == n
  {
    ValueOfDecimal(n);
    if |Decimal(n)| < 5 {
      LeadingZeros(5 - |Decimal(n)|, Decimal(n));
    }
  }

  /** Different shards of one buffer have different files. */
  lemma FileNamesDistinct(i: nat, j: nat, n: nat)
    requires ShardFileName(i, n) == ShardFileName(j, n)
    ensures i == j
  {
    PaddedReads(i + 1);
    PaddedReads(j + 1);
    NameStart(i, n);
    NameStart(j, n);
    hide *;
    SameDigits(Padded(i + 1), Padded(j + 1), "-of-" + Padded(n) + ".safetensors");
  }

  lemma SameDigits(a: string, b: string, rest: string)
    requires AllDigits(a) && AllDigits(b) && rest != "" && rest[0] == '-' && a + rest == b + rest
    ensures a == b
  {
    DigitsFree(a);
    DigitsFree(b);
    CutUnique(a, rest, b, rest, '-');
  }

  lemma DigitsFree(s: string)
    requires AllDigits(s)
    ensures Free('-', s)
  {}

  /** The file name after its prefix. */
  lemma NameStart(i: nat, n: nat)
    ensures |ShardFileName(i, n)| >= 6
    ensures ShardFileName(i, n)[6..] == Padded(i + 1) + ("-of-" + Padded(n) + ".safetensors")
  {
    hide Padded;
    NameTail("model-", Padded(i + 1), "-of-", Padded(n), ".safetensors");
  }

  lemma NameTail(a: string, b: string, c: string, d: string, e: string)
    ensures (a + b + c + d + e)[|a|..] == b + (c + d + e)
  {}

  function PatternShare(capacity: Capacity, n: nat): int
    requires n > 0
  {
    if capacity.Value? then GoDiv(capacity.bytes, n) else 0
  }

  method FromPattern(dir: string, capacity: Capacity, n: nat) returns (shards: seq<Shard>)
    requires n > 0
    ensures shards == PatternTable(dir, capacity, n)
  {
    var discovered := new Shard[n](_ => ZERO_SHARD);
    var perShardSize := 0;
    if capacity.Value? {
      perShardSize := GoDiv(capacity.bytes, n);
    }
    for i := 0 to n
      invariant forall k :: 0 <= k < i ==>
                              discovered[k] == Shard(k, Join(dir, ShardFileName(k, n)), PatternShare(capacity, n))
    {
      discovered[i] := Shard(i, Join(dir, ShardFileName(i, n)), perShardSize);
    }
    return discovered[..];
  }

  // ----- Case 3: even byte ranges -----

  function EvenSize(total: int, n: nat, i: nat): int
    requires n > 0
  {
    GoDiv(total, n) + if i < GoMod(total, n) then 1 else 0
  }

  method EvenSplit(path: string, total: int, n: nat) returns (shards: seq<Shard>)
    requires n > 0
    ensures shards == EvenTable(path, total, n)
  {
    var perShardSize := GoDiv(total, n);
    var remainder := GoMod(total, n);
    var discovered := new Shard[n](_ => ZERO_SHARD);
    for i := 0 to n
      invariant forall k :: 0 <= k < i ==> discovered[k] == Shard(k, Plain(path), EvenSize(total, n, k))
    {
      var size := perShardSize;
      if i < remainder {
        size := size + 1;
      }
      discovered[i] := Shard(i, Plain(path), size);
    }
    return discovered[..];
  }

  /** The bytes before shard i. */
  function EvenOffset(total: int, n: nat, i: nat): int
    requires n > 0
  {
    if i == 0 then 0 else EvenOffset(total, n, i - 1) + EvenSize(total, n, i - 1)
  }

  function Min(a: int, b: int): int {
    if a < b then a else b
  }

  lemma {:induction false} EvenOffsetClosed(total: int, n: nat, i: nat)
    requires n > 0 && i <= n
    ensures EvenOffset(total, n, i) == i * GoDiv(total, n) + if GoMod(total, n) > 0 then Min(i, GoMod(total, n)) else 0
  {
    if i > 0 {
      EvenOffsetClosed(total, n, i - 1);
      assert i * GoDiv(total, n) == (i - 1) * GoDiv(total, n) + GoDiv(total, n);
    }
  }

  /** The sizes are non-increasing and differ by at most one; their sum is the capacity exactly when that is
      not negative or divisible: with a negative one Go's remainder is negative and gets lost. */
  lemma EvenSplitConserves(total: int, n: nat)
    requires n > 0
    ensures forall i, j :: 0 <= i <= j < n ==> 0 <= EvenSize(total, n, i) - EvenSize(total, n, j) <= 1
    ensures EvenOffset(total, n, n) == total <==> total >= 0 || GoMod(total, n) == 0
    ensures total >= 0 ==> 0 <= GoMod(total, n) < n
  {
    EvenOffsetClosed(total, n, n);
    GoModBounds(total, n);
    hide GoDiv, EvenOffset;
    WithRemainder(n * GoDiv(total, n), GoMod(total, n), n, total);
  }

  lemma GoModBounds(total: int, n: nat)
    requires n > 0
    ensures total == n * GoDiv(total, n) + GoMod(total, n)
    ensures if total >= 0 then 0 <= GoMod(total, n) < n else 0 <= -GoMod(total, n) < n
  {
    if total >= 0 {
      assert GoMod(total, n) == total % n;
    } else {
      assert GoMod(total, n) == -((-total) % n);
    }
  }

  /** The same about the product `p` of the count and the share. */
  lemma WithRemainder(p: int, r: int, n: nat, total: int)
    requires total == p + r && if total >= 0 then 0 <= r < n else 0 <= -r < n
    ensures p + (if r > 0 then Min(n, r) else 0) == total <==> total >= 0 || r == 0
  {}

  // ----- discoverShards -----

  function EvenTable(path: string, total: int, n: nat): seq<Shard>
    requires n > 0
  {
    seq(n, i requires 0 <= i < n => Shard(i, Plain(path), EvenSize(total, n, i)))
  }

  function PatternTable(dir: string, capacity: Capacity, n: nat): seq<Shard>
    requires n > 0
  {
    seq(n, i requires 0 <= i < n => Shard(i, Join(dir, ShardFileName(i, n)), PatternShare(capacity, n)))
  }

  /** The shards that discovery resolves, always as many as declared, or why it fails. */
  function Discover(spec: Spec): (d: Discovery)
    requires spec.sharding.Some? && spec.sharding.value.numShards > 0
    ensures d.Found? ==> |d.shards| == spec.sharding.value.numShards
  {
    var s := spec.sharding.value;
    var n := s.numShards;
    if |s.shardFiles| > 0 then
      if |s.shardFiles| != n then Failed(CountMismatch(|s.shardFiles|, n))
      else match FirstStray(s.shardFiles, n)
        case None => Found(TableOf(s.shardFiles, n))
        case Some(i) => Failed(IndexOutOfRange(i, n))
    else if s.filePattern != "" then Found(PatternTable(spec.sourcePath, spec.capacity, n))
    else match spec.capacity
      case Absent => Failed(NothingToSplit)
      case Malformed => Failed(InvalidCapacity)
      case Value(total) => Found(EvenTable(spec.sourcePath, total, n))
  }

  // ----- What the tables promise -----

  /** The sizes of the shards together. */
  function SumOf(shards: seq<Shard>): int {
    if shards == [] then 0 else SumOf(shards[..|shards| - 1]) + shards[|shards| - 1].sizeBytes
  }

  /** `k` is the last of the files with index i. */
  predicate LastFile(files: seq<ShardFile>, k: int, i: int) {
    0 <= k < |files| && files[k].index == i && forall j :: k < j < |files| ==> files[j].index != i
  }

  /** The last file with index i, or nothing but zeros if there is none. */
  ghost predicate FileSlot(files: seq<ShardFile>, i: int, shard: Shard) {
    if forall k :: 0 <= k < |files| ==> files[k].index != i then shard == Shard(0, Plain(""), 0)
    else exists k :: LastFile(files, k, i) && shard == Shard(i, Plain(files[k].path), files[k].sizeBytes)
  }

  /** `s` is n in at least five decimals, with no zero in front beyond that. */
  predicate Numbers(s: string, n: nat) {
    AllDigits(s) && DigitsValue(s) == n && |s| >= 5 && (|s| > 5 ==> s[0] != '0')
  }

  /** `share` is the n-th part of the total, towards zero. */
  predicate IsShare(share: int, total: int, n: nat) {
    if total >= 0 then share * n <= total < (share + 1) * n else (share - 1) * n < total <= share * n
  }

  /** File number i + 1 of n, and the share of a readable capacity. */
  ghost predicate PatternSlot(spec: Spec, n: nat, i: nat, shard: Shard) {
    && shard.index == i && shard.path.Join? && shard.path.dir == spec.sourcePath
    && (exists a, b :: Numbers(a, i + 1) && Numbers(b, n)
                       && shard.path.file == "model-" + a + "-of-" + b + ".safetensors")
    && (if spec.capacity.Value? then IsShare(shard.sizeBytes, spec.capacity.bytes, n) else shard.sizeBytes == 0)
  }

  /** All shards from the one source, larger ones first, none more than a byte larger than another; of a capacity
      that is not negative they take every byte, and of a negative one its share each. */
  predicate EvenRanges(path: string, total: int, shards: seq<Shard>) {
    && (forall i :: 0 <= i < |shards| ==> shards[i].index == i && shards[i].path == Plain(path))
    && (forall i, j :: 0 <= i <= j < |shards| ==> 0 <= shards[i].sizeBytes - shards[j].sizeBytes <= 1)
    && (total >= 0 ==> SumOf(shards) == total)
    && (total < 0 ==> forall i :: 0 <= i < |shards| ==> IsShare(shards[i].sizeBytes, total, |shards|))
  }

  /** The spec says how to cut: one entry per shard, all in range; else a pattern; else a capacity. */
  predicate Discoverable(spec: Spec)
    requires spec.sharding.Some?
  {
    var s := spec.sharding.value;
    if s.shardFiles != [] then |s.shardFiles| == s.numShards && InRange(s.shardFiles, s.numShards)
    else s.filePattern != "" || spec.capacity.Value?
  }

  ghost predicate PromisedTable(spec: Spec, shards: seq<Shard>)
    requires spec.sharding.Some?
  {
    var s := spec.sharding.value;
    && |shards| == s.numShards
    && if s.shardFiles != [] then forall i :: 0 <= i < |shards| ==> FileSlot(s.shardFiles, i, shards[i])
       else if s.filePattern != "" then forall i :: 0 <= i < |shards| ==> PatternSlot(spec, |shards|, i, shards[i])
       else spec.capacity.Value? && EvenRanges(spec.sourcePath, spec.capacity.bytes, shards)
  }

  /** What the failure says is what is wrong with the spec. */
  predicate Explained(spec: Spec, f: Failure)
    requires spec.sharding.Some?
  {
    var s := spec.sharding.value;
    match f
    case CountMismatch(files, n) => s.shardFiles != [] && files == |s.shardFiles| != s.numShards == n
    case IndexOutOfRange(i, n) =>
      && s.shardFiles != [] && |s.shardFiles| == s.numShards == n && !(0 <= i < n)
      && exists k :: 0 <= k < |s.shardFiles| && s.shardFiles[k].index == i && InRange(s.shardFiles[..k], n)
    case NothingToSplit => s.shardFiles == [] && s.filePattern == "" && spec.capacity.Absent?
    case InvalidCapacity => s.shardFiles == [] && s.filePattern == "" && spec.capacity.Malformed?
  }

  /** Discovery succeeds exactly for the specs that say how to cut, and gives the table that each way promises; a
      failure names what is wrong. */
  lemma DiscoversExactly(spec: Spec)
    requires spec.sharding.Some? && spec.sharding.value.numShards > 0
    ensures match Discover(spec)
            case Found(shards) => Discoverable(spec) && PromisedTable(spec, shards)
            case Failed(f) => !Discoverable(spec) && Explained(spec, f)
  {
    var s := spec.sharding.value;
    if s.shardFiles != [] {
      FilesDiscovered(s.shardFiles, s.numShards);
    } else if s.filePattern != "" {
      PatternDiscovered(spec, s.numShards);
    } else if spec.capacity.Value? {
      EvenDiscovered(spec.sourcePath, spec.capacity.bytes, s.numShards);
    }
  }

  lemma FilesDiscovered(files: seq<ShardFile>, n: nat)
    requires files != []
    ensures match FirstStray(files, n)
            case None => InRange(files, n) && forall i :: 0 <= i < n ==> FileSlot(files, i, TableOf(files, n)[i])
            case Some(i) =>
              !(0 <= i < n) && exists k :: 0 <= k < |files| && files[k].index == i && InRange(files[..k], n)
  {
    StrayIff(files, n);
    if InRange(files, n) {
      forall i | 0 <= i < n
        ensures FileSlot(files, i, TableOf(files, n)[i])
      {
        SlotIsLast(files, i);
      }
    } else {
      FirstStrayAt(files, n);
    }
  }

  lemma {:induction false} SlotIsLast(files: seq<ShardFile>, i: int)
    ensures FileSlot(files, i, SlotAt(files, i))
  {
    LastWithBound(files, i);
    if LastWith(files, i) >= 0 {
      NoneBehindLast(files, i);
      assert LastFile(files, LastWith(files, i), i);
    }
  }

  lemma {:induction false} NoneBehindLast(files: seq<ShardFile>, i: int)
    ensures forall j :: LastWith(files, i) < j < |files| && j >= 0 ==> files[j].index != i
  {
    if files != [] && files[|files| - 1].index != i {
      var front := files[..|files| - 1];
      NoneBehindLast(front, i);
      assert forall j :: 0 <= j < |front| ==> front[j] == files[j];
    }
  }

  lemma {:induction false} FirstStrayAt(files: seq<ShardFile>, n: int)
    requires !InRange(files, n)
    ensures FirstStray(files, n).Some? && !(0 <= FirstStray(files, n).value < n)
    ensures exists k :: 0 <= k < |files| && files[k].index == FirstStray(files, n).value && InRange(files[..k], n)
  {
    if !(0 <= files[0].index < n) {
      assert InRange(files[..0], n);
    } else {
      var rest := files[1..];
      assert forall k :: 1 <= k < |files| ==> files[k] == rest[k - 1];
      FirstStrayAt(rest, n);
      var k :| 0 <= k < |rest| && rest[k].index == FirstStray(rest, n).value && InRange(rest[..k], n);
      assert files[..k + 1] == [files[0]] + rest[..k];
      assert InRange(files[..k + 1], n) && files[k + 1] == rest[k];
    }
  }

  lemma NoLeadingZero(n: nat)
    requires |Decimal(n)| > 5
    ensures Decimal(n)[0] != '0'
  {
    FirstDigit(n);
  }

  lemma {:induction false} FirstDigit(n: nat)
    requires n > 0
    ensures Decimal(n)[0] != '0'
  {
    if n >= 10 {
      FirstDigit(n / 10);
    }
  }

  lemma PaddedNumbers(n: nat)
    ensures Numbers(Padded(n), n)
  {
    PaddedReads(n);
    if |Decimal(n)| > 5 {
      NoLeadingZero(n);
    }
  }

  lemma ShareOf(total: int, n: nat)
    requires n > 0
    ensures IsShare(GoDiv(total, n), total, n)
  {
    var t := if total >= 0 then total else -total;
    var q := t / n;
    assert t == q * n + t % n && (q + 1) * n == q * n + n;
    assert (-q) * n == -(q * n) && (-q - 1) * n == -(q * n) - n;
  }

  lemma PatternDiscovered(spec: Spec, n: nat)
    requires n > 0
    ensures forall i :: 0 <= i < n ==> PatternSlot(spec, n, i, PatternTable(spec.sourcePath, spec.capacity, n)[i])
  {
    forall i | 0 <= i < n
      ensures PatternSlot(spec, n, i, PatternTable(spec.sourcePath, spec.capacity, n)[i])
    {
      PaddedNumbers(i + 1);
      PaddedNumbers(n);
      if spec.capacity.Value? {
        ShareOf(spec.capacity.bytes, n);
      }
    }
  }

  lemma {:induction false} SumOfEven(path: string, total: int, n: nat, k: nat)
    requires n > 0 && k <= n
    ensures SumOf(EvenTable(path, total, n)[..k]) == EvenOffset(total, n, k)
  {
    if k > 0 {
      SumOfEven(path, total, n, k - 1);
      assert EvenTable(path, total, n)[..k][..k - 1] == EvenTable(path, total, n)[..k - 1];
    }
  }

  lemma EvenDiscovered(path: string, total: int, n: nat)
    requires n > 0
    ensures EvenRanges(path, total, EvenTable(path, total, n))
  {
    var table := EvenTable(path, total, n);
    EvenSplitConserves(total, n);
    SumOfEven(path, total, n, n);
    assert table[..n] == table;
    ShareOf(total, n);
    GoModBounds(total, n);
    hide GoDiv, GoMod, IsShare, SumOf, EvenOffset;
  }

  /** The sizes in the table of a pattern add up to a capacity exactly when the shard count divides it: unlike the even
      split, a pattern drops the remainder. */
  lemma PatternSumsIff(spec: Spec)
    requires spec.sharding.Some? && spec.sharding.value.numShards > 0 && spec.capacity.Value?
    requires spec.sharding.value.shardFiles == [] && spec.sharding.value.filePattern != ""
    ensures Discover(spec).Found?
    ensures SumOf(Discover(spec).shards) == spec.capacity.bytes <==>
            spec.capacity.bytes % spec.sharding.value.numShards == 0
  {
    var n, total := spec.sharding.value.numShards, spec.capacity.bytes;
    var table := PatternTable(spec.sourcePath, spec.capacity, n);
    SumOfEqual(table, GoDiv(total, n));
    ShareDividesIff(total, n);
  }

  lemma {:induction false} SumOfEqual(shards: seq<Shard>, size: int)
    requires forall i :: 0 <= i < |shards| ==> shards[i].sizeBytes == size
    ensures SumOf(shards) == |shards| * size
  {
    if shards != [] {
      SumOfEqual(shards[..|shards| - 1], size);
      OneMore(|shards|, size);
    }
  }

  lemma OneMore(n: nat, size: int)
    ensures n * size == (n - 1) * size + size
  {}

  lemma ShareDividesIff(total: int, n: nat)
    requires n > 0
    ensures n * GoDiv(total, n) == total <==> total % n == 0
  {
    if total < 0 {
      assert -total == (-total) / n * n + (-total) % n;
      NegativeMultiple(total, n);
      NegativeMultiple(-total, n);
    } else {
      assert total == total / n * n + total % n;
    }
  }

  lemma NegativeMultiple(x: int, n: nat)
    requires n > 0
    ensures x % n == 0 ==> (-x) % n == 0
  {
    if x % n == 0 {
      assert -x == (-(x / n)) * n;
      DivModUnique(-x, -(x / n), 0, n);
    }
  }

  method DiscoverShards(spec: Spec) returns (d: Discovery)
    requires spec.sharding.Some? && spec.sharding.value.numShards > 0
    ensures d == Discover(spec)
  {
    var s := spec.sharding.value;
    var n := s.numShards;
    if |s.shardFiles| > 0 {
      if |s.shardFiles| != n {
        return Failed(CountMismatch(|s.shardFiles|, n));
      }
      d := FromFiles(s.shardFiles, n);
      return;
    }
    if s.filePattern != "" {
      var shards := FromPattern(spec.sourcePath, spec.capacity, n);
      return Found(shards);
    }
    match spec.capacity {
      case Absent => return Failed(NothingToSplit);
      case Malformed => return Failed(InvalidCapacity);
      case Value(total) =>
        var shards := EvenSplit(spec.sourcePath, total, n);
        return Found(shards);
    }
  }
}
