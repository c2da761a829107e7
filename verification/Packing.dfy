/** The checkpoint engine: tensors packed into a flat buffer with an offset table, and read back by name. */
module Packing {
  import opened Text
  import opened DriverState

  datatype Dtype = Dtype(name: string, itemsize: nat)

  function Numel(shape: seq<nat>): nat {
    if shape == [] then 1 else Numel(shape[..|shape| - 1]) * shape[|shape| - 1]
  }

  datatype Tensor = Tensor(dtype: Dtype, shape: seq<nat>, data: seq<Byte>) {
    predicate Valid() {
      dtype.itemsize > 0 && |data| == dtype.itemsize * Numel(shape)
    }
  }

  type Weights = seq<(string, Tensor)>

  predicate ValidWeights(ws: Weights) {
    forall i :: 0 <= i < |ws| ==> ws[i].1.Valid()
  }

  /** A Python dict: keys in first-insertion order. */
  datatype Dict<V> = Dict(keys: seq<string>, vals: map<string, V>) {
    ghost predicate Valid() {
      && (forall k :: k in keys <==> k in vals)
      && (forall i, j :: 0 <= i < j < |keys| ==> keys[i] != keys[j])
    }

    function Put(k: string, v: V): (d: Dict<V>)
      ensures Valid() ==> d.Valid()
    {
      Dict(if k in vals then keys else keys + [k], vals[k := v])
    }
  }

  datatype Meta = Meta(shape: seq<nat>, dtype: Dtype, offset: nat)

  // ----- What packing produces -----

  /** The first n tensors, one after the other. */
  function Payload(ws: Weights, n: nat): seq<Byte>
    requires n <= |ws|
  {
    if n == 0 then [] else Payload(ws, n - 1) + ws[n - 1].1.data
  }

  function Table(ws: Weights, n: nat): (d: Dict<Meta>)
    requires n <= |ws|
    ensures d.Valid()
  {
    if n == 0 then Dict([], map[]) else
    var t := ws[n - 1].1;
    Table(ws, n - 1).Put(ws[n - 1].0, Meta(t.shape, t.dtype, |Payload(ws, n - 1)|))
  }

  /** The dictionary of the sent list: names in first-insertion order, last tensor per name. */
  function DictOf(ws: Weights, n: nat): (d: Dict<Tensor>)
    requires n <= |ws|
    ensures d.Valid()
  {
    if n == 0 then Dict([], map[]) else DictOf(ws, n - 1).Put(ws[n - 1].0, ws[n - 1].1)
  }

  /** The buffer with the first n tensors packed: the rest of it is untouched. */
  function Packed(buf: seq<Byte>, ws: Weights, n: nat): (r: seq<Byte>)
    requires n <= |ws| && |Payload(ws, n)| <= |buf|
    ensures |r| == |buf|
  {
    Payload(ws, n) + buf[|Payload(ws, n)|..]
  }

  /** The number of tensors packed before one does not fit. */
  function Fitting(ws: Weights, bucketSize: nat, n: nat): (fits: nat)
    requires n <= |ws|
    ensures fits <= n && (fits > 0 ==> |Payload(ws, fits)| <= bucketSize)
  {
    if n == 0 then 0
    else if Fitting(ws, bucketSize, n - 1) < n - 1 || |Payload(ws, n)| > bucketSize then Fitting(ws, bucketSize, n - 1)
    else n
  }

  lemma {:induction false} PayloadGrows(ws: Weights, m: nat, n: nat)
    requires m <= n <= |ws|
    ensures |Payload(ws, m)| <= |Payload(ws, n)| && Payload(ws, n)[..|Payload(ws, m)|] == Payload(ws, m)
  {
    if m < n {
      PayloadGrows(ws, m, n - 1);
    }
  }

  /** Packing succeeds exactly when the whole list fits. */
  lemma {:induction false} AllFitIff(ws: Weights, bucketSize: nat, n: nat)
    requires n <= |ws|
    ensures Fitting(ws, bucketSize, n) == n <==> |Payload(ws, n)| <= bucketSize
  {
    if n > 0 {
      AllFitIff(ws, bucketSize, n - 1);
      PayloadGrows(ws, n - 1, n);
    }
  }

  lemma {:induction false} FittingStops(ws: Weights, bucketSize: nat, m: nat, n: nat)
    requires m < n <= |ws| && Fitting(ws, bucketSize, m) == m && |Payload(ws, m + 1)| > bucketSize
    ensures Fitting(ws, bucketSize, n) == m
  {
    if m + 1 < n {
      FittingStops(ws, bucketSize, m, n - 1);
    }
  }

  /** The loop has packed the first i tensors. */
  predicate Packing(was: seq<Byte>, now: seq<Byte>, ws: Weights, bucketSize: nat, i: nat, total: nat,
                    meta: Dict<Meta>) {
    && i <= |ws| && Fitting(ws, bucketSize, i) == i
    && total == |Payload(ws, i)| <= bucketSize <= |was|
    && meta == Table(ws, i) && now == Packed(was, ws, i)
  }

  lemma PackingNext(was: seq<Byte>, now: seq<Byte>, ws: Weights, bucketSize: nat, i: nat, total: nat, meta: Dict<Meta>)
    requires i < |ws| && Packing(was, now, ws, bucketSize, i, total, meta) && total + |ws[i].1.data| <= bucketSize
    ensures var t := ws[i].1;
            |now| == |was| &&
            Packing(was, now[..total] + t.data + now[total + |t.data|..], ws, bucketSize, i + 1, total + |t.data|,
                    meta.Put(ws[i].0, Meta(t.shape, t.dtype, total)))
  {
    var data := ws[i].1.data;
    hide Table, Fitting;
    assert Payload(ws, i + 1) == Payload(ws, i) + data;
    PrefixGrows(Payload(ws, i), data, was, now);
    hide Payload;
    assert now[..total] + data + now[total + |data|..] == Packed(was, ws, i + 1);
    FittingNext(ws, bucketSize, i, meta);
  }

  lemma PrefixGrows(p: seq<Byte>, data: seq<Byte>, was: seq<Byte>, now: seq<Byte>)
    requires |p| + |data| <= |was| && now == p + was[|p|..]
    ensures now[..|p|] + data + now[|p| + |data|..] == p + data + was[|p| + |data|..]
  {}

  lemma FittingNext(ws: Weights, bucketSize: nat, i: nat, meta: Dict<Meta>)
    requires i < |ws| && Fitting(ws, bucketSize, i) == i && meta == Table(ws, i)
    requires |Payload(ws, i)| + |ws[i].1.data| <= bucketSize
    ensures Fitting(ws, bucketSize, i + 1) == i + 1
    ensures Table(ws, i + 1) == meta.Put(ws[i].0, Meta(ws[i].1.shape, ws[i].1.dtype, |Payload(ws, i)|))
  {}

  /** The loop ends after the last tensor, or at one that does not fit. */
  lemma PackingEnds(was: seq<Byte>, now: seq<Byte>, ws: Weights, bucketSize: nat, i: nat, total: nat, meta: Dict<Meta>)
    requires Packing(was, now, ws, bucketSize, i, total, meta)
    requires i < |ws| ==> total + |ws[i].1.data| > bucketSize
    ensures Fitting(ws, bucketSize, |ws|) == i && (i == |ws| <==> |Payload(ws, |ws|)| <= bucketSize)
    ensures total == |Payload(ws, i)| <= bucketSize <= |was| && meta == Table(ws, i) && now == Packed(was, ws, i)
  {
    AllFitIff(ws, bucketSize, |ws|);
    if i < |ws| {
      FittingStops(ws, bucketSize, i, |ws|);
    }
  }

  /** The packing loop of `send_weights`. An overflow leaves exactly the earlier tensors packed. */
  method SendWeights(vram: array<Byte>, bucketSize: nat, ws: Weights) returns (ok: bool, meta: Dict<Meta>, total: nat)
    requires bucketSize <= vram.Length
    modifies vram
    ensures ok <==> |Payload(ws, |ws|)| <= bucketSize
    ensures ok ==> Fitting(ws, bucketSize, |ws|) == |ws|
    ensures var n := Fitting(ws, bucketSize, |ws|);
            && |Payload(ws, n)| <= bucketSize
            && meta == Table(ws, n) && total == |Payload(ws, n)|
            && vram[..] == Packed(old(vram[..]), ws, n)
  {
    meta, total := Dict([], map[]), 0;
    ghost var was := vram[..];
    for i := 0 to |ws|
      invariant Packing(was, vram[..], ws, bucketSize, i, total, meta)
    {
      var (name, weight) := ws[i];
      var nbytes := |weight.data|;
      if total + nbytes > bucketSize {
        PackingEnds(was, vram[..], ws, bucketSize, i, total, meta);
        return false, meta, total;
      }
      PackingNext(was, vram[..], ws, bucketSize, i, total, meta);
      meta := meta.Put(name, Meta(weight.shape, weight.dtype, total));
      CopyInto(vram, total, weight.data);
      total := total + nbytes;
    }
    PackingEnds(was, vram[..], ws, bucketSize, |ws|, total, meta);
    ok := true;
  }

  method CopyInto(a: array<Byte>, at: nat, data: seq<Byte>)
    requires at + |data| <= a.Length
    modifies a
    ensures a[..] == old(a[..])[..at] + data + old(a[..])[at + |data|..]
  {
    forall i | 0 <= i < |data| {
      a[at + i] := data[i];
    }
  }

  // ----- What unpacking yields -----

  /** Slice, reinterpret, reshape: torch refuses a view at an offset that the itemsize does not divide. */
  function View(buf: seq<Byte>, m: Meta): Option<Tensor> {
    var size := m.dtype.itemsize * Numel(m.shape);
    if m.dtype.itemsize == 0 || m.offset + size > |buf| || m.offset % m.dtype.itemsize != 0 then None
    else Some(Tensor(m.dtype, m.shape, buf[m.offset..m.offset + size]))
  }

  function ViewAt(meta: Dict<Meta>, buf: seq<Byte>, i: nat): Option<Tensor>
    requires meta.Valid() && i < |meta.keys|
  {
    View(buf, meta.vals[meta.keys[i]])
  }

  /** How many of the first n names are yielded before a view is refused. */
  function Readable(meta: Dict<Meta>, buf: seq<Byte>, n: nat): (k: nat)
    requires meta.Valid() && n <= |meta.keys|
    ensures k <= n
  {
    if n > 0 && Readable(meta, buf, n - 1) == n - 1 && ViewAt(meta, buf, n - 1).Some? then n
    else if n == 0 then 0 else Readable(meta, buf, n - 1)
  }

  /** The first n names with their tensors. */
  function Read(meta: Dict<Meta>, buf: seq<Byte>, n: nat): Weights
    requires meta.Valid() && n <= |meta.keys|
  {
    if n == 0 then [] else
    Read(meta, buf, n - 1)
    + (if ViewAt(meta, buf, n - 1).Some? then [(meta.keys[n - 1], ViewAt(meta, buf, n - 1).value)] else [])
  }

  /** The reading loop of `receive_weights`: it yields until a view is refused, and then raises. */
  method ReceiveWeights(meta: Dict<Meta>, buf: seq<Byte>) returns (items: Weights, raised: bool)
    requires meta.Valid()
    ensures var k := Readable(meta, buf, |meta.keys|); items == Read(meta, buf, k) && (raised <==> k < |meta.keys|)
  {
    items := [];
    for i := 0 to |meta.keys|
      invariant Readable(meta, buf, i) == i && items == Read(meta, buf, i)
    {
      var k := meta.keys[i];
      var tensor := View(buf, meta.vals[k]);
      if tensor.None? {
        ReadingStops(meta, buf, i, |meta.keys|);
        return items, true;
      }
      items := items + [(k, tensor.value)];
    }
    raised := false;
  }

  lemma {:induction false} ReadingStops(meta: Dict<Meta>, buf: seq<Byte>, m: nat, n: nat)
    requires meta.Valid() && m < n <= |meta.keys| && Readable(meta, buf, m) == m && ViewAt(meta, buf, m).None?
    ensures Readable(meta, buf, n) == m
  {
    if m + 1 < n {
      ReadingStops(meta, buf, m, n - 1);
    }
  }
}
