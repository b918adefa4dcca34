/** Packing tensors into one binary at 64-byte boundaries, with metadata that finds each again. */
module WeightPacker {

  type byte = n: nat | n < 256

  /** A tensor of the state dictionary: its name and its raw bytes. */
  datatype Tensor = Tensor(name: string, bytes: seq<byte>)

  datatype Meta = Meta(offset: nat, size: nat)

  /** A dictionary lists every name once. */
  ghost predicate DistinctNames(ts: seq<Tensor>) {
    forall i, j :: 0 <= i < j < |ts| ==> ts[i].name != ts[j].name
  }

  function Padding(offset: nat): nat {
    (64 - offset % 64) % 64
  }

  lemma PaddingAligns(offset: nat)
    ensures Padding(offset) < 64 && (offset + Padding(offset)) % 64 == 0
  {
  }

  /** The recorded place of a tensor really holds it. */
  predicate Stored(data: seq<byte>, m: Meta, t: Tensor) {
    && m.size == |t.bytes| && m.offset + m.size <= |data|
    && data[m.offset..m.offset + m.size] == t.bytes
  }

  /** Where the tensor after `before` may start: aligned, after it, less than 64 zero bytes on. */
  predicate Follows(data: seq<byte>, end: nat, m: Meta) {
    && m.offset % 64 == 0 && end <= m.offset < end + 64 && m.offset <= |data|
    && forall k :: end <= k < m.offset ==> data[k] == 0
  }

  /** Where the first `k` tensors end according to the metadata. */
  function EndOf(ts: seq<Tensor>, meta: map<string, Meta>, k: nat): nat
    requires k <= |ts|
  {
    if k == 0 || ts[k - 1].name !in meta then 0 else meta[ts[k - 1].name].offset + meta[ts[k - 1].name].size
  }

  /** Tensor `i` is recorded under its name, stored intact, at the first boundary after its predecessor. */
  ghost predicate Placed(ts: seq<Tensor>, data: seq<byte>, meta: map<string, Meta>, i: nat)
    requires i < |ts|
  {
    && ts[i].name in meta
    && Stored(data, meta[ts[i].name], ts[i])
    && Follows(data, EndOf(ts, meta, i), meta[ts[i].name])
  }

  /** The first `n` tensors are packed: each is placed, nothing else is recorded, and the data ends with the
      last of them. */
  ghost predicate Packed(ts: seq<Tensor>, n: nat, data: seq<byte>, meta: map<string, Meta>)
    requires n <= |ts|
  {
    && (forall i :: 0 <= i < n ==> Placed(ts, data, meta, i))
    && (forall name :: name in meta ==> exists i :: 0 <= i < n && ts[i].name == name)
    && |data| == EndOf(ts, meta, n)
  }

  /** Extending the data keeps what is stored. */
  lemma AppendKeeps(data: seq<byte>, more: seq<byte>, m: Meta, t: Tensor, end: nat)
    requires Stored(data, m, t) && Follows(data, end, m)
    ensures Stored(data + more, m, t) && Follows(data + more, end, m)
  {
    assert (data + more)[m.offset..m.offset + m.size] == data[m.offset..m.offset + m.size];
  }

  /** The new tensor is placed at the end. */
  lemma PackedLast(ts: seq<Tensor>, n: nat, data: seq<byte>, meta: map<string, Meta>, zeros: seq<byte>, m: Meta)
    requires n < |ts| && |data| == EndOf(ts, meta, n)
    requires n > 0 ==> ts[n - 1].name != ts[n].name
    requires |zeros| == Padding(|data|) && forall k :: 0 <= k < |zeros| ==> zeros[k] == 0
    requires m == Meta(|data| + |zeros|, |ts[n].bytes|)
    ensures Placed(ts, data + zeros + ts[n].bytes, meta[ts[n].name := m], n)
  {
    hide Padding;
    PaddingAligns(|data|);
    var data' := data + zeros + ts[n].bytes;
    assert data'[m.offset..m.offset + m.size] == ts[n].bytes;
    assert Stored(data', m, ts[n]);
    assert Follows(data', |data|, m);
  }

  /** An earlier tensor stays placed. */
  lemma PackedEarlier(ts: seq<Tensor>, data: seq<byte>, more: seq<byte>, meta: map<string, Meta>, name: string, m: Meta, i: nat)
    requires i < |ts| && Placed(ts, data, meta, i) && name != ts[i].name
    requires i > 0 ==> name != ts[i - 1].name
    ensures Placed(ts, data + more, meta[name := m], i)
  {
    hide Stored, Follows;
    AppendKeeps(data, more, meta[ts[i].name], ts[i], EndOf(ts, meta, i));
  }

  lemma PackOne(ts: seq<Tensor>, n: nat, data: seq<byte>, meta: map<string, Meta>, zeros: seq<byte>, m: Meta)
    requires DistinctNames(ts) && n < |ts| && Packed(ts, n, data, meta)
    requires |zeros| == Padding(|data|) && forall k :: 0 <= k < |zeros| ==> zeros[k] == 0
    requires m == Meta(|data| + |zeros|, |ts[n].bytes|)
    ensures Packed(ts, n + 1, data + zeros + ts[n].bytes, meta[ts[n].name := m])
  {
    hide Placed, Padding;
    var data', meta' := data + zeros + ts[n].bytes, meta[ts[n].name := m];
    assert data' == data + (zeros + ts[n].bytes);
    PackedLast(ts, n, data, meta, zeros, m);
    forall i | 0 <= i < n ensures Placed(ts, data', meta', i) {
      PackedEarlier(ts, data, zeros + ts[n].bytes, meta, ts[n].name, m, i);
    }
    forall name | name in meta' ensures exists i :: 0 <= i < n + 1 && ts[i].name == name {
      if name == ts[n].name { assert ts[n].name == name; }
    }
  }

  /** The packing loop: one growing byte array, one running offset, one dictionary. */
  method Pack(ts: seq<Tensor>) returns (data: seq<byte>, meta: map<string, Meta>)
    requires DistinctNames(ts)
    ensures Packed(ts, |ts|, data, meta)
  {
    hide Packed, DistinctNames;
    data, meta := [], map[];
    var currentOffset := 0;
    NothingPacked(ts);
    for n := 0 to |ts|
      invariant Packed(ts, n, data, meta)
      invariant currentOffset == |data|
    {
      var start := data;
      var padding := (64 - currentOffset % 64) % 64;
      var zeros: seq<byte> := [];
      if padding > 0 {
        zeros := seq(padding, _ => 0);
        data := data + zeros;
        currentOffset := currentOffset + padding;
      }
      var m := Meta(currentOffset, |ts[n].bytes|);
      data := data + ts[n].bytes;
      currentOffset := currentOffset + |ts[n].bytes|;
      assert data == start + zeros + ts[n].bytes;
      PackOne(ts, n, start, meta, zeros, m);
      meta := meta[ts[n].name := m];
    }
  }

  lemma NothingPacked(ts: seq<Tensor>)
    ensures Packed(ts, 0, [], map[])
  {
  }

  // ----- what the metadata is for -----

  /** A reader: the slice of the file a name points to. */
  function Read(data: seq<byte>, meta: map<string, Meta>, name: string): seq<byte>
    requires name in meta && meta[name].offset + meta[name].size <= |data|
  {
    data[meta[name].offset..meta[name].offset + meta[name].size]
  }

  /** Reading a packed file by name gives back every tensor's bytes. */
  lemma ReadBack(ts: seq<Tensor>, data: seq<byte>, meta: map<string, Meta>, i: nat)
    requires Packed(ts, |ts|, data, meta) && i < |ts|
    ensures ts[i].name in meta && meta[ts[i].name].offset + meta[ts[i].name].size <= |data|
    ensures Read(data, meta, ts[i].name) == ts[i].bytes
    ensures meta[ts[i].name].offset % 64 == 0
  {
    assert Placed(ts, data, meta, i);
  }

  /** Different tensors never overlap: the earlier one ends before the later one starts, and the gap between
      neighbours is less than 64 bytes, all of them zero. */
  lemma {:induction false} InOrder(ts: seq<Tensor>, data: seq<byte>, meta: map<string, Meta>, i: nat, j: nat)
    requires Packed(ts, |ts|, data, meta) && i < j < |ts|
    ensures ts[i].name in meta && ts[j].name in meta
    ensures var end, start := meta[ts[i].name].offset + meta[ts[i].name].size, meta[ts[j].name].offset;
            end <= start <= |data| && (j == i + 1 ==> start < end + 64 && forall k :: end <= k < start ==> data[k] == 0)
    decreases j - i
  {
    assert Placed(ts, data, meta, i) && Placed(ts, data, meta, j);
    if i < j - 1 {
      assert Placed(ts, data, meta, j - 1);
      InOrder(ts, data, meta, i, j - 1);
    }
  }

  lemma AlignedIsUnique(end: nat, a: nat, b: nat)
    requires a % 64 == 0 && b % 64 == 0 && end <= a < end + 64 && end <= b < end + 64
    ensures a == b
  {
    assert a == 64 * (a / 64) && b == 64 * (b / 64);
  }

  /** The layout is determined by the tensors alone: two files that meet the description have the same metadata
      for every name. */
  lemma {:induction false} LayoutUnique(ts: seq<Tensor>, data: seq<byte>, meta: map<string, Meta>, data': seq<byte>, meta': map<string, Meta>, n: nat)
    requires n <= |ts| && Packed(ts, |ts|, data, meta) && Packed(ts, |ts|, data', meta')
    ensures EndOf(ts, meta, n) == EndOf(ts, meta', n)
    ensures n < |ts| ==> ts[n].name in meta && ts[n].name in meta' && meta[ts[n].name] == meta'[ts[n].name]
    decreases n
  {
    if n > 0 { LayoutUnique(ts, data, meta, data', meta', n - 1); }
    if n < |ts| {
      assert Placed(ts, data, meta, n) && Placed(ts, data', meta', n);
      AlignedIsUnique(EndOf(ts, meta, n), meta[ts[n].name].offset, meta'[ts[n].name].offset);
    }
  }

  /** So the metadata and the file length are a function of the tensors. */
  lemma {:induction false} PackingUnique(ts: seq<Tensor>, data: seq<byte>, meta: map<string, Meta>, data': seq<byte>, meta': map<string, Meta>)
    requires Packed(ts, |ts|, data, meta) && Packed(ts, |ts|, data', meta')
    ensures meta == meta' && |data| == |data'|
  {
    hide Placed;
    LayoutUnique(ts, data, meta, data', meta', |ts|);
    forall name | name in meta || name in meta'
      ensures name in meta && name in meta' && meta[name] == meta'[name]
    {
      var i :| 0 <= i < |ts| && ts[i].name == name;
      LayoutUnique(ts, data, meta, data', meta', i);
    }
  }
}
