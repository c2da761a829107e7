/** Packing and unpacking are inverse, up to what torch can view. */
module PackingProofs {
  import opened Arithmetic
  import opened Text
  import opened DriverState
  import opened Packing

  // ----- Shapes -----

  /** A tensor has as many elements as the product of its dimensions. */
  lemma {:induction false} NumelIsProduct(a: seq<nat>, b: seq<nat>, d: nat)
    ensures Numel([]) == 1 && Numel([d]) == d && Numel(a + b) == Numel(a) * Numel(b)
  {
    assert [d][..0] == [];
    if b == [] {
      assert a + b == a;
    } else {
      var front, last := b[..|b| - 1], b[|b| - 1];
      assert (a + b)[..|a + b| - 1] == a + front;
      NumelIsProduct(a, front, d);
      assert Numel(a) * Numel(front) * last == Numel(a) * (Numel(front) * last);
    }
  }

  // ----- Offsets -----

  /** The bytes of the first n tensors. */
  function SizesBefore(ws: Weights, n: nat): nat
    requires n <= |ws|
  {
    if n == 0 then 0 else SizesBefore(ws, n - 1) + |ws[n - 1].1.data|
  }

  predicate LiesIn(ws: Weights, i: nat, p: nat)
    requires i < |ws|
  {
    SizesBefore(ws, i) <= p < SizesBefore(ws, i) + |ws[i].1.data|
  }

  lemma {:induction false} PayloadLength(ws: Weights, n: nat)
    requires n <= |ws|
    ensures |Payload(ws, n)| == SizesBefore(ws, n)
  {
    if n > 0 {
      PayloadLength(ws, n - 1);
    }
  }

  /** The offset recorded for a tensor is the sum of the sizes before it, and a name keeps that of its last one. */
  lemma {:induction false} OffsetsAreSums(ws: Weights, n: nat)
    requires n <= |ws|
    ensures forall k :: k in Table(ws, n).vals ==>
                          0 <= LastIndex(ws, n, k) < n && ws[LastIndex(ws, n, k)].0 == k
                          && Table(ws, n).vals[k].offset == SizesBefore(ws, LastIndex(ws, n, k))
  {
    if n > 0 {
      OffsetsAreSums(ws, n - 1);
      PayloadLength(ws, n - 1);
    }
  }

  lemma {:induction false} SizesGrow(ws: Weights, i: nat, j: nat)
    requires i <= j <= |ws|
    ensures SizesBefore(ws, i) <= SizesBefore(ws, j)
  {
    if i < j {
      SizesGrow(ws, i, j - 1);
    }
  }

  /** The tensor in which a position of the payload lies. */
  lemma {:induction false} TensorAt(ws: Weights, n: nat, p: nat) returns (i: nat)
    requires n <= |ws| && p < SizesBefore(ws, n)
    ensures i < n && LiesIn(ws, i, p)
  {
    if p < SizesBefore(ws, n - 1) {
      i := TensorAt(ws, n - 1, p);
    } else {
      i := n - 1;
    }
  }

  /** The tensors tile the payload: each position below the total lies in exactly one of them. */
  lemma OffsetsTile(ws: Weights, p: nat)
    requires p < |Payload(ws, |ws|)|
    ensures exists i :: 0 <= i < |ws| && LiesIn(ws, i, p)
    ensures forall i, j :: 0 <= i < |ws| && 0 <= j < |ws| && LiesIn(ws, i, p) && LiesIn(ws, j, p) ==> i == j
  {
    PayloadLength(ws, |ws|);
    var k := TensorAt(ws, |ws|, p);
    forall i, j | 0 <= i < j < |ws| && LiesIn(ws, i, p) && LiesIn(ws, j, p)
      ensures false
    {
      SizesGrow(ws, i + 1, j);
    }
  }

  predicate Divides(d: nat, x: nat) {
    d > 0 && x % d == 0
  }

  /** Each later itemsize divides each earlier one. */
  predicate Descending(ws: Weights) {
    forall i, j :: 0 <= i < j < |ws| ==> Divides(ws[j].1.dtype.itemsize, ws[i].1.dtype.itemsize)
  }

  lemma {:induction false} OffsetDivisible(ws: Weights, n: nat, d: nat)
    requires ValidWeights(ws) && n <= |ws| && d > 0
    requires forall i :: 0 <= i < n ==> Divides(d, ws[i].1.dtype.itemsize)
    ensures |Payload(ws, n)| % d == 0
  {
    if n > 0 {
      OffsetDivisible(ws, n - 1, d);
      var t := ws[n - 1].1;
      assert t.Valid();
      MultipleOfMultiple(t.dtype.itemsize, Numel(t.shape), d);
      SumOfMultiples(|Payload(ws, n - 1)|, |t.data|, d);
    }
  }

  predicate AlignedMeta(m: Meta) {
    Divides(m.dtype.itemsize, m.offset)
  }

  /** Every name's table entry can be viewed. */
  predicate Aligned(meta: Dict<Meta>) {
    forall k :: k in meta.vals ==> AlignedMeta(meta.vals[k])
  }

  lemma {:induction false} DescendingIsAligned(ws: Weights, n: nat)
    requires ValidWeights(ws) && Descending(ws) && n <= |ws|
    ensures Aligned(Table(ws, n))
  {
    if n > 0 {
      DescendingIsAligned(ws, n - 1);
      assert ws[n - 1].1.Valid();
      OffsetDivisible(ws, n - 1, ws[n - 1].1.dtype.itemsize);
    }
  }

  // ----- The dictionary -----

  /** The last position among the first n at which the name occurs. */
  function LastIndex(ws: Weights, n: nat, name: string): int
    requires n <= |ws|
  {
    if n == 0 then -1 else if ws[n - 1].0 == name then n - 1 else LastIndex(ws, n - 1, name)
  }

  function FirstIndex(ws: Weights, n: nat, name: string): int
    requires n <= |ws|
  {
    if n == 0 then -1 else
    if FirstIndex(ws, n - 1, name) >= 0 then FirstIndex(ws, n - 1, name)
    else if ws[n - 1].0 == name then n - 1 else -1
  }

  lemma {:induction false} FirstIndexBound(ws: Weights, n: nat, name: string)
    requires n <= |ws|
    ensures -1 <= FirstIndex(ws, n, name) < n || (n == 0 && FirstIndex(ws, n, name) == -1)
    ensures FirstIndex(ws, n, name) >= 0 ==> ws[FirstIndex(ws, n, name)].0 == name
  {
    if n > 0 {
      FirstIndexBound(ws, n - 1, name);
    }
  }

  /** The dictionary holds, under each name that was sent, the last tensor sent under it. */
  lemma {:induction false} LastTensorWins(ws: Weights, n: nat)
    requires n <= |ws|
    ensures forall k :: k in DictOf(ws, n).vals <==> LastIndex(ws, n, k) >= 0
    ensures forall k :: k in DictOf(ws, n).vals ==>
                          LastIndex(ws, n, k) < n && DictOf(ws, n).vals[k] == ws[LastIndex(ws, n, k)].1
  {
    if n > 0 {
      LastTensorWins(ws, n - 1);
    }
  }

  lemma KeysAfter(ws: Weights, n: nat)
    requires 0 < n <= |ws|
    ensures DictOf(ws, n).keys == Listed(DictOf(ws, n - 1).keys, ws[n - 1].0)
  {}

  /** The names with one more, unless it is among them. */
  function Listed(names: seq<string>, name: string): (r: seq<string>)
    ensures forall k :: k in r <==> k in names || k == name
    ensures |names| <= |r| && r[..|names|] == names
    ensures |r| > |names| ==> |r| == |names| + 1 && r[|names|] == name && name !in names
  {
    if name in names then names else names + [name]
  }

  lemma KnownKeepsIndex(ws: Weights, n: nat, k: string)
    requires 0 < n <= |ws|
    ensures -1 <= FirstIndex(ws, n - 1, k) < n - 1 || FirstIndex(ws, n - 1, k) == -1
    ensures FirstIndex(ws, n, k) == if FirstIndex(ws, n - 1, k) >= 0 then FirstIndex(ws, n - 1, k)
                                    else if ws[n - 1].0 == k then n - 1 else -1
  {
    FirstIndexBound(ws, n - 1, k);
  }

  lemma {:induction false} ListedIff(ws: Weights, n: nat, k: string)
    requires n <= |ws|
    ensures k in DictOf(ws, n).keys <==> FirstIndex(ws, n, k) >= 0
  {
    if n > 0 {
      ListedIff(ws, n - 1, k);
      ListedStep(ws, n, k);
    }
  }

  lemma ListedStep(ws: Weights, n: nat, k: string)
    requires 0 < n <= |ws| && (k in DictOf(ws, n - 1).keys <==> FirstIndex(ws, n - 1, k) >= 0)
    ensures k in DictOf(ws, n).keys <==> FirstIndex(ws, n, k) >= 0
  {
    hide *;
    KnownKeepsIndex(ws, n, k);
    KeysAfter(ws, n);
  }

  /** Names that are listed before are first sent before. */
  lemma {:induction false} OrderAt(ws: Weights, n: nat, i: nat, j: nat)
    requires n <= |ws| && i < j < |DictOf(ws, n).keys|
    ensures FirstIndex(ws, n, DictOf(ws, n).keys[i]) < FirstIndex(ws, n, DictOf(ws, n).keys[j])
    decreases n
  {
    if j < |DictOf(ws, n - 1).keys| {
      OrderAt(ws, n - 1, i, j);
    }
    OrderStep(ws, n, i, j);
  }

  lemma OrderStep(ws: Weights, n: nat, i: nat, j: nat)
    requires 0 < n <= |ws| && i < j < |DictOf(ws, n).keys|
    requires var known := DictOf(ws, n - 1).keys;
             j < |known| ==> FirstIndex(ws, n - 1, known[i]) < FirstIndex(ws, n - 1, known[j])
    ensures FirstIndex(ws, n, DictOf(ws, n).keys[i]) < FirstIndex(ws, n, DictOf(ws, n).keys[j])
  {
    hide *;
    KeysAfter(ws, n);
    var known, first, second := DictOf(ws, n - 1).keys, DictOf(ws, n).keys[i], DictOf(ws, n).keys[j];
    KnownKeepsIndex(ws, n, first);
    KnownKeepsIndex(ws, n, second);
    assert first == known[i];
    ListedIff(ws, n - 1, first);
    ListedIff(ws, n - 1, second);
    assert j < |known| ==> second == known[j];
  }

  /** And its names in the order of their first occurrence. */
  lemma NamesInFirstOrder(ws: Weights, n: nat)
    requires n <= |ws|
    ensures var keys := DictOf(ws, n).keys;
            && (forall k :: k in keys <==> FirstIndex(ws, n, k) >= 0)
            && (forall i, j :: 0 <= i < j < |keys| ==> FirstIndex(ws, n, keys[i]) < FirstIndex(ws, n, keys[j]))
  {
    hide DictOf, FirstIndex;
    forall k
      ensures k in DictOf(ws, n).keys <==> FirstIndex(ws, n, k) >= 0
    {
      ListedIff(ws, n, k);
    }
    forall i, j | 0 <= i < j < |DictOf(ws, n).keys|
      ensures FirstIndex(ws, n, DictOf(ws, n).keys[i]) < FirstIndex(ws, n, DictOf(ws, n).keys[j])
    {
      OrderAt(ws, n, i, j);
    }
  }

  // ----- Reading back -----

  /** The bytes of the buffer at the offset are those of the tensor. */
  predicate Shows(m: Meta, t: Tensor, buf: seq<Byte>) {
    && t.Valid() && m.shape == t.shape && m.dtype == t.dtype
    && m.offset + |t.data| <= |buf| && buf[m.offset..m.offset + |t.data|] == t.data
  }

  ghost predicate Describes(meta: Dict<Meta>, d: Dict<Tensor>, buf: seq<Byte>) {
    && meta.Valid() && meta.keys == d.keys
    && forall k :: k in meta.vals ==> k in d.vals && Shows(meta.vals[k], d.vals[k], buf)
  }

  lemma PayloadIn(ws: Weights, n: nat, buf: seq<Byte>)
    requires ValidWeights(ws) && 0 < n <= |ws|
    requires |Payload(ws, n)| <= |buf| && buf[..|Payload(ws, n)|] == Payload(ws, n)
    ensures var t := ws[n - 1].1;
            && |Payload(ws, n - 1)| <= |buf| && buf[..|Payload(ws, n - 1)|] == Payload(ws, n - 1)
            && Shows(Meta(t.shape, t.dtype, |Payload(ws, n - 1)|), t, buf)
  {
    var lo, hi := |Payload(ws, n - 1)|, |Payload(ws, n)|;
    PayloadGrows(ws, n - 1, n);
    assert buf[..hi][..lo] == buf[..lo] && buf[..hi][lo..] == buf[lo..hi];
    assert ws[n - 1].1.Valid();
  }

  /** Any buffer that starts with the packed bytes is described by the offset table. */
  lemma {:induction false} TableDescribes(ws: Weights, n: nat, buf: seq<Byte>)
    requires ValidWeights(ws) && n <= |ws|
    requires |Payload(ws, n)| <= |buf| && buf[..|Payload(ws, n)|] == Payload(ws, n)
    ensures Describes(Table(ws, n), DictOf(ws, n), buf)
  {
    if n > 0 {
      PayloadIn(ws, n, buf);
      TableDescribes(ws, n - 1, buf);
    }
  }

  /** The leading names whose entries can be viewed. */
  function Viewable(meta: Dict<Meta>, n: nat): (k: nat)
    requires meta.Valid() && n <= |meta.keys|
    ensures k <= n
  {
    if n == 0 then 0
    else if Viewable(meta, n - 1) < n - 1 || !AlignedMeta(meta.vals[meta.keys[n - 1]]) then Viewable(meta, n - 1)
    else n
  }

  function Items(d: Dict<Tensor>, n: nat): Weights
    requires d.Valid() && n <= |d.keys|
  {
    if n == 0 then [] else Items(d, n - 1) + [(d.keys[n - 1], d.vals[d.keys[n - 1]])]
  }

  lemma ViewShows(m: Meta, t: Tensor, buf: seq<Byte>)
    requires Shows(m, t, buf)
    ensures View(buf, m) == if AlignedMeta(m) then Some(t) else None
  {}

  /** The view at each name is the dictionary's tensor, or refused when misaligned. */
  ghost predicate ViewsDict(meta: Dict<Meta>, d: Dict<Tensor>, buf: seq<Byte>) {
    && meta.Valid() && d.Valid() && meta.keys == d.keys
    && forall i :: 0 <= i < |meta.keys| ==> ViewIs(meta, d, buf, i)
  }

  predicate ViewIs(meta: Dict<Meta>, d: Dict<Tensor>, buf: seq<Byte>, i: nat)
    requires meta.Valid() && d.Valid() && meta.keys == d.keys && i < |meta.keys|
  {
    ViewAt(meta, buf, i) == if AlignedMeta(meta.vals[meta.keys[i]]) then Some(d.vals[d.keys[i]]) else None
  }

  lemma {:induction false} ReadableIsViewable(meta: Dict<Meta>, d: Dict<Tensor>, buf: seq<Byte>, n: nat)
    requires ViewsDict(meta, d, buf) && n <= |meta.keys|
    ensures Readable(meta, buf, n) == Viewable(meta, n)
  {
    if n > 0 {
      ReadableIsViewable(meta, d, buf, n - 1);
      assert ViewIs(meta, d, buf, n - 1);
    }
  }

  lemma {:induction false} ReadIsItems(meta: Dict<Meta>, d: Dict<Tensor>, buf: seq<Byte>, n: nat)
    requires ViewsDict(meta, d, buf) && n <= |meta.keys| && Viewable(meta, n) == n
    ensures Read(meta, buf, n) == Items(d, n)
  {
    if n > 0 {
      ReadIsItems(meta, d, buf, n - 1);
      assert ViewIs(meta, d, buf, n - 1);
    }
  }

  lemma {:induction false} ViewablePrefix(meta: Dict<Meta>, n: nat)
    requires meta.Valid() && n <= |meta.keys|
    ensures Viewable(meta, Viewable(meta, n)) == Viewable(meta, n)
  {
    if n > 0 {
      ViewablePrefix(meta, n - 1);
    }
  }

  lemma {:induction false} ViewableIff(meta: Dict<Meta>, n: nat)
    requires meta.Valid() && n <= |meta.keys|
    ensures Viewable(meta, n) == n <==> forall i :: 0 <= i < n ==> AlignedMeta(meta.vals[meta.keys[i]])
  {
    if n > 0 {
      ViewableIff(meta, n - 1);
    }
  }

  lemma AlignedIff(meta: Dict<Meta>)
    requires meta.Valid()
    ensures Viewable(meta, |meta.keys|) == |meta.keys| <==> Aligned(meta)
  {
    ViewableIff(meta, |meta.keys|);
    assert forall k :: k in meta.vals <==> k in meta.keys;
  }

  lemma ViewsOf(meta: Dict<Meta>, d: Dict<Tensor>, buf: seq<Byte>)
    requires Describes(meta, d, buf) && d.Valid()
    ensures ViewsDict(meta, d, buf)
  {
    forall i | 0 <= i < |meta.keys|
      ensures ViewIs(meta, d, buf, i)
    {
      ViewShows(meta.vals[meta.keys[i]], d.vals[d.keys[i]], buf);
    }
  }

  /** From any buffer that shows the dictionary where the offset table says, reading yields it up to the first
      name whose last offset is not a multiple of its itemsize; so all of it exactly when there is none. */
  lemma ReadBackExactly(ws: Weights, buf: seq<Byte>)
    requires Describes(Table(ws, |ws|), DictOf(ws, |ws|), buf)
    ensures var meta, d := Table(ws, |ws|), DictOf(ws, |ws|);
            var n, k := |d.keys|, Viewable(meta, |meta.keys|);
            && meta.keys == d.keys && Readable(meta, buf, n) == k && Read(meta, buf, k) == Items(d, k)
            && (k == n <==> Aligned(meta))
  {
    var meta, d := Table(ws, |ws|), DictOf(ws, |ws|);
    ViewsOf(meta, d, buf);
    ReadableIsViewable(meta, d, buf, |meta.keys|);
    ViewablePrefix(meta, |meta.keys|);
    ReadIsItems(meta, d, buf, Viewable(meta, |meta.keys|));
    AlignedIff(meta);
  }

  /** The table has the dictionary's names, dtypes and shapes, and no entry reaches beyond the payload. */
  ghost predicate Lists(meta: Dict<Meta>, d: Dict<Tensor>, total: nat) {
    && meta.Valid() && d.Valid() && meta.keys == d.keys
    && forall k :: k in meta.vals ==> k in d.vals && Matches(meta.vals[k], d.vals[k], total)
  }

  predicate Matches(m: Meta, t: Tensor, total: nat) {
    t.Valid() && m.shape == t.shape && m.dtype == t.dtype && m.offset + |t.data| <= total
  }

  lemma {:induction false} TableLists(ws: Weights, n: nat)
    requires ValidWeights(ws) && n <= |ws|
    ensures Lists(Table(ws, n), DictOf(ws, n), |Payload(ws, n)|)
  {
    if n > 0 {
      var t, m, d := ws[n - 1].1, Table(ws, n - 1), DictOf(ws, n - 1);
      TableLists(ws, n - 1);
      assert t.Valid();
      ListsPut(m, d, |Payload(ws, n - 1)|, ws[n - 1].0, t);
    }
  }

  lemma ListsPut(meta: Dict<Meta>, d: Dict<Tensor>, total: nat, k: string, t: Tensor)
    requires Lists(meta, d, total) && t.Valid()
    ensures Lists(meta.Put(k, Meta(t.shape, t.dtype, total)), d.Put(k, t), total + |t.data|)
  {
    assert forall k :: k in meta.vals ==> Matches(meta.vals[k], d.vals[k], total);
  }

  /** What a worker gets out of a buffer with the table of the sent list: exactly the list's dictionary. */
  predicate Reads(ws: Weights, buf: seq<Byte>) {
    var meta, d := Table(ws, |ws|), DictOf(ws, |ws|);
    && |meta.keys| == |d.keys| && Readable(meta, buf, |d.keys|) == |d.keys|
    && Read(meta, buf, |d.keys|) == Items(d, |d.keys|)
  }

  lemma {:induction false} ReadAll(meta: Dict<Meta>, buf: seq<Byte>, n: nat)
    requires meta.Valid() && n <= |meta.keys| && Readable(meta, buf, n) == n
    ensures |Read(meta, buf, n)| == n
    ensures forall i :: 0 <= i < n ==>
                          ViewAt(meta, buf, i).Some?
                          && Read(meta, buf, n)[i] == (meta.keys[i], ViewAt(meta, buf, i).value)
  {
    if n > 0 {
      ReadAll(meta, buf, n - 1);
    }
  }

  lemma {:induction false} ItemsAre(d: Dict<Tensor>, n: nat)
    requires d.Valid() && n <= |d.keys|
    ensures |Items(d, n)| == n && forall i :: 0 <= i < n ==> Items(d, n)[i] == (d.keys[i], d.vals[d.keys[i]])
  {
    if n > 0 {
      ItemsAre(d, n - 1);
    }
  }

  lemma ViewGives(m: Meta, t: Tensor, buf: seq<Byte>, total: nat)
    requires Matches(m, t, total) && View(buf, m) == Some(t)
    ensures AlignedMeta(m) && Shows(m, t, buf)
  {}

  lemma ReadsShows(ws: Weights, buf: seq<Byte>)
    requires ValidWeights(ws) && Reads(ws, buf)
    ensures Aligned(Table(ws, |ws|)) && Describes(Table(ws, |ws|), DictOf(ws, |ws|), buf)
  {
    var meta, d := Table(ws, |ws|), DictOf(ws, |ws|);
    TableLists(ws, |ws|);
    ReadAll(meta, buf, |meta.keys|);
    ItemsAre(d, |d.keys|);
    hide Table, DictOf, Read, Readable, Items;
    forall k | k in meta.vals
      ensures AlignedMeta(meta.vals[k]) && k in d.vals && Shows(meta.vals[k], d.vals[k], buf)
    {
      assert k in meta.keys;
      var i :| 0 <= i < |meta.keys| && meta.keys[i] == k;
      assert Read(meta, buf, |meta.keys|)[i] == Items(d, |d.keys|)[i];
      ViewGives(meta.vals[k], d.vals[k], buf, |Payload(ws, |ws|)|);
    }
  }

  /** A buffer yields exactly the dictionary if and only if every last offset is a multiple of its itemsize, and
      the buffer shows every name's last tensor there. */
  lemma ReadsIff(ws: Weights, buf: seq<Byte>)
    requires ValidWeights(ws)
    ensures Reads(ws, buf) <==> Aligned(Table(ws, |ws|)) && Describes(Table(ws, |ws|), DictOf(ws, |ws|), buf)
  {
    if Reads(ws, buf) {
      ReadsShows(ws, buf);
    }
    if Describes(Table(ws, |ws|), DictOf(ws, |ws|), buf) {
      ReadBackExactly(ws, buf);
    }
  }

  /** Only the first bytes of the buffer matter, as many as were packed. */
  lemma DescribesPrefix(ws: Weights, a: seq<Byte>, b: seq<Byte>)
    requires ValidWeights(ws)
    requires |Payload(ws, |ws|)| <= |a| && |Payload(ws, |ws|)| <= |b|
    requires a[..|Payload(ws, |ws|)|] == b[..|Payload(ws, |ws|)|]
    requires Describes(Table(ws, |ws|), DictOf(ws, |ws|), a)
    ensures Describes(Table(ws, |ws|), DictOf(ws, |ws|), b)
  {
    var meta, d, n := Table(ws, |ws|), DictOf(ws, |ws|), |Payload(ws, |ws|)|;
    TableLists(ws, |ws|);
    hide Table, DictOf, Payload, Shows, Matches;
    forall k | k in meta.vals
      ensures Shows(meta.vals[k], d.vals[k], b)
    {
      ShowsPrefix(meta.vals[k], d.vals[k], a, b, n);
    }
  }

  lemma ShowsPrefix(m: Meta, t: Tensor, a: seq<Byte>, b: seq<Byte>, n: nat)
    requires Shows(m, t, a) && Matches(m, t, n) && n <= |a| && n <= |b| && a[..n] == b[..n]
    ensures Shows(m, t, b)
  {
    hide Numel;
    var lo, hi := m.offset, m.offset + |t.data|;
    assert a[lo..hi] == a[..n][lo..hi] && b[lo..hi] == b[..n][lo..hi];
  }
}
