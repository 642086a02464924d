/** Files cut into 64 MiB layers: three readers, reassembly, and the delta between
    two versions of a file. */
module Layering {
  import opened Common
  import opened Files

  const LAYER_SIZE: nat := 1024 * 1024 * 64

  datatype LayerMeta = LayerMeta(hash: Digest, offset: nat)

  datatype Layer = Layer(data: seq<byte>, meta: LayerMeta)

  // ---- Simple chunking -------------------------------------------------------

  function LayerCount(n: nat): nat {
    (n + LAYER_SIZE - 1) / LAYER_SIZE
  }

  /** The layer a file has at an offset. */
  function LayerFrom(f: seq<byte>, offset: nat): Layer
    requires offset <= |f|
  {
    var data := f[offset..Min(offset + LAYER_SIZE, |f|)];
    Layer(data, LayerMeta(Sha256Of(data), offset))
  }

  /** The first k layers of a file: blocks at multiples of the layer size. */
  function FirstLayers(f: seq<byte>, k: nat): seq<Layer>
    requires k <= LayerCount(|f|)
  {
    seq(k, i requires 0 <= i < k => LayerFrom(f, i * LAYER_SIZE))
  }

  function LayersOf(f: seq<byte>): seq<Layer> {
    FirstLayers(f, LayerCount(|f|))
  }

  function Metas(layers: seq<Layer>): seq<LayerMeta> {
    seq(|layers|, i requires 0 <= i < |layers| => layers[i].meta)
  }

  /** The data of the layers in the order given. */
  function Joined(layers: seq<Layer>): seq<byte> {
    if layers == [] then []
    else
      var n := |layers| - 1;
      Joined(layers[..n]) + layers[n].data
  }

  /** All layers are full but perhaps the last, and none is empty. */
  lemma LayerSizes(f: seq<byte>, i: nat)
    requires i < LayerCount(|f|)
    ensures 0 < |LayersOf(f)[i].data| <= LAYER_SIZE
    ensures i < LayerCount(|f|) - 1 ==> |LayersOf(f)[i].data| == LAYER_SIZE
    ensures i == LayerCount(|f|) - 1 ==> |LayersOf(f)[i].data| == |f| - i * LAYER_SIZE
  {}

  /** Layer i records where it starts, and the hash of what is there. */
  lemma LayersRecordTheirOffsets(f: seq<byte>, i: nat)
    requires i < LayerCount(|f|)
    ensures var lo, hi := i * LAYER_SIZE, Min((i + 1) * LAYER_SIZE, |f|);
            LayersOf(f)[i] == Layer(f[lo..hi], LayerMeta(Sha256Of(f[lo..hi]), lo))
  {}

  /** So the offset a layer records leads back to that layer. */
  lemma OffsetsLeadBack(f: seq<byte>, i: nat)
    requires i < LayerCount(|f|)
    ensures var meta := Metas(LayersOf(f))[i];
            meta.offset < |f| && LayerFrom(f, meta.offset) == LayersOf(f)[i] && LayersOf(f)[i].meta == meta
  {}

  lemma {:induction false} JoinedLayers(f: seq<byte>, k: nat)
    requires k <= LayerCount(|f|)
    ensures Joined(FirstLayers(f, k)) == f[..Min(k * LAYER_SIZE, |f|)]
  {
    if k > 0 {
      JoinedLayers(f, k - 1);
      assert FirstLayers(f, k)[..k - 1] == FirstLayers(f, k - 1);
      assert (k - 1) * LAYER_SIZE < |f|;
    }
  }

  // ---- The readers -----------------------------------------------------------

  /** The inner loop of `to_layers`: fills the buffer as far as the file goes, however
      short the reads, and feeds the hasher piece by piece. */
  method FillBuffer(src: FileSource, buffer: array<byte>) returns (bytesRead: nat, hashed: seq<byte>)
    requires src.Valid() && buffer.Length == LAYER_SIZE
    modifies src, buffer
    ensures src.Valid() && src.pos == old(src.pos) + bytesRead
    ensures bytesRead == Min(LAYER_SIZE, |src.data| - old(src.pos))
    ensures buffer[..bytesRead] == hashed == src.data[old(src.pos)..src.pos]
  {
    bytesRead, hashed := 0, [];
    while bytesRead < LAYER_SIZE
      invariant src.Valid() && src.pos == old(src.pos) + bytesRead && bytesRead <= LAYER_SIZE
      invariant buffer[..bytesRead] == hashed == src.data[old(src.pos)..src.pos]
      decreases LAYER_SIZE - bytesRead
    {
      var n := src.Read(buffer, bytesRead);
      if n == 0 {
        break;
      }
      hashed := hashed + buffer[bytesRead..bytesRead + n];
      assert buffer[..bytesRead + n] == buffer[..bytesRead] + buffer[bytesRead..bytesRead + n];
      bytesRead := bytesRead + n;
    }
  }

  lemma NextLayer(f: seq<byte>, k: nat)
    requires k * LAYER_SIZE < |f|
    ensures k < LayerCount(|f|)
    ensures FirstLayers(f, k + 1) == FirstLayers(f, k) + [LayerFrom(f, k * LAYER_SIZE)]
    ensures Metas(FirstLayers(f, k + 1)) == Metas(FirstLayers(f, k)) + [LayerFrom(f, k * LAYER_SIZE).meta]
  {}

  method ToLayers(src: FileSource) returns (layers: seq<Layer>)
    requires src.Valid() && src.pos == 0
    modifies src
    ensures layers == LayersOf(src.data)
  {
    layers := [];
    var offset := 0;
    while true
      invariant src.Valid() && src.pos == offset == Min(|layers| * LAYER_SIZE, |src.data|)
      invariant |layers| <= LayerCount(|src.data|) && layers == FirstLayers(src.data, |layers|)
      decreases |src.data| - offset
    {
      var buffer := new byte[LAYER_SIZE](_ => 0);
      var bytesRead, hashed := FillBuffer(src, buffer);
      if bytesRead == 0 {
        assert |layers| == LayerCount(|src.data|);
        return layers;
      }
      NextLayer(src.data, |layers|);
      layers := layers + [Layer(buffer[..bytesRead], LayerMeta(Sha256Of(hashed), offset))];
      offset := offset + bytesRead;
    }
    assert false;
  }

  method ReadFileLayer(src: FileSource) returns (metas: seq<LayerMeta>)
    requires src.Valid() && src.pos == 0
    modifies src
    ensures metas == Metas(LayersOf(src.data))
  {
    metas := [];
    var offset := 0;
    while true
      invariant src.Valid() && src.pos == offset == Min(|metas| * LAYER_SIZE, |src.data|)
      invariant |metas| <= LayerCount(|src.data|) && metas == Metas(FirstLayers(src.data, |metas|))
      decreases |src.data| - offset
    {
      var buffer := src.TakeToEnd(LAYER_SIZE);
      var n := |buffer|;
      if n == 0 {
        assert |metas| == LayerCount(|src.data|);
        return metas;
      }
      NextLayer(src.data, |metas|);
      assert buffer == LayerFrom(src.data, offset).data;
      metas := metas + [LayerMeta(Sha256Of(buffer), offset)];
      offset := offset + n;
    }
    assert false;
  }

  /** Any offset gives the bytes from there on, and none exactly at or past the end;
      at an offset that the metadata record it is the layer of that entry. */
  method ReadDataLayer(src: FileSource, offset: nat) returns (layer: Option<Layer>)
    requires src.Valid()
    modifies src
    ensures layer == None <==> offset >= |src.data|
    ensures offset < |src.data| ==> layer == Some(LayerFrom(src.data, offset))
    ensures offset < |src.data| ==>
              && layer.value.data == src.data[offset..Min(offset + LAYER_SIZE, |src.data|)]
              && layer.value.meta == LayerMeta(Sha256Of(layer.value.data), offset)
    ensures forall i :: 0 <= i < LayerCount(|src.data|) && offset == Metas(LayersOf(src.data))[i].offset ==>
              layer == Some(LayersOf(src.data)[i])
  {
    src.Seek(offset);
    var buffer := src.TakeToEnd(LAYER_SIZE);
    if |buffer| == 0 {
      return None;
    }
    assert src.pos == Min(offset + LAYER_SIZE, |src.data|);
    return Some(Layer(buffer, LayerMeta(Sha256Of(buffer), offset)));
  }

  // ---- Reassembly ------------------------------------------------------------

  ghost predicate Sorted(layers: seq<Layer>) {
    forall i, j :: 0 <= i < j < |layers| ==> layers[i].meta.offset <= layers[j].meta.offset
  }

  ghost predicate StrictlySorted(layers: seq<Layer>) {
    forall i, j :: 0 <= i < j < |layers| ==> layers[i].meta.offset < layers[j].meta.offset
  }

  /** x put behind every layer of s that does not start after it. */
  function Insert(s: seq<Layer>, x: Layer): (r: seq<Layer>)
    ensures |r| == |s| + 1
  {
    if s == [] || s[|s| - 1].meta.offset <= x.meta.offset then s + [x]
    else
      var n := |s| - 1;
      Insert(s[..n], x) + [s[n]]
  }

  /** The stable sort by offset. */
  function SortByOffset(s: seq<Layer>): (r: seq<Layer>)
    ensures |r| == |s|
  {
    if s == [] then []
    else
      var n := |s| - 1;
      Insert(SortByOffset(s[..n]), s[n])
  }

  /** Sorts the slice in place by offset (the library's stable sort) and writes the
      data out in that order. */
  method FromLayers(layers: array<Layer>) returns (file: seq<byte>)
    modifies layers
    ensures layers[..] == SortByOffset(old(layers[..]))
    ensures file == Joined(layers[..])
  {
    var sorted := SortByOffset(layers[..]);
    forall i | 0 <= i < layers.Length { layers[i] := sorted[i]; }
    assert layers[..] == sorted;
    file := [];
    for i := 0 to layers.Length
      invariant file == Joined(sorted[..i])
    {
      assert sorted[..i + 1][..i] == sorted[..i];
      file := file + layers[i].data;
    }
    assert sorted[..layers.Length] == sorted;
  }

  lemma LastApart(s: seq<Layer>)
    requires s != []
    ensures multiset(s) == multiset(s[..|s| - 1]) + multiset{s[|s| - 1]}
  {
    assert s == s[..|s| - 1] + [s[|s| - 1]];
  }

  lemma {:induction false} InsertAdds(s: seq<Layer>, x: Layer)
    ensures multiset(Insert(s, x)) == multiset(s) + multiset{x}
  {
    if s != [] && s[|s| - 1].meta.offset > x.meta.offset {
      InsertAdds(s[..|s| - 1], x);
      LastApart(s);
    }
  }

  lemma {:induction false} InsertSorts(s: seq<Layer>, x: Layer)
    requires Sorted(s)
    ensures Sorted(Insert(s, x))
    ensures forall y :: y in Insert(s, x) ==> y in s || y == x
  {
    if s != [] && s[|s| - 1].meta.offset > x.meta.offset {
      var n := |s| - 1;
      InsertSorts(s[..n], x);
      var r := Insert(s[..n], x);
      forall i | 0 <= i < |r| ensures r[i].meta.offset <= s[n].meta.offset {
        assert r[i] in r;
      }
    }
  }

  lemma {:induction false} SortPermutes(s: seq<Layer>)
    ensures multiset(SortByOffset(s)) == multiset(s)
  {
    if s != [] {
      SortPermutes(s[..|s| - 1]);
      InsertAdds(SortByOffset(s[..|s| - 1]), s[|s| - 1]);
      LastApart(s);
    }
  }

  /** The layers that start at an offset, in order. */
  function StartingAt(s: seq<Layer>, offset: nat): seq<Layer> {
    if s == [] then []
    else
      var n := |s| - 1;
      StartingAt(s[..n], offset) + if s[n].meta.offset == offset then [s[n]] else []
  }

  lemma StartingAtSnoc(s: seq<Layer>, x: Layer, offset: nat)
    ensures StartingAt(s + [x], offset) == StartingAt(s, offset) + if x.meta.offset == offset then [x] else []
  {
    assert (s + [x])[..|s|] == s;
  }

  lemma {:induction false} InsertGoesLast(s: seq<Layer>, x: Layer, offset: nat)
    ensures StartingAt(Insert(s, x), offset) == StartingAt(s, offset) + if x.meta.offset == offset then [x] else []
  {
    if s != [] && s[|s| - 1].meta.offset > x.meta.offset {
      var n := |s| - 1;
      InsertGoesLast(s[..n], x, offset);
      StartingAtSnoc(Insert(s[..n], x), s[n], offset);
    } else {
      StartingAtSnoc(s, x, offset);
    }
  }

  /** Sorting keeps the order of layers that start at the same offset. */
  lemma {:induction false} SortIsStable(s: seq<Layer>, offset: nat)
    ensures StartingAt(SortByOffset(s), offset) == StartingAt(s, offset)
  {
    if s != [] {
      SortIsStable(s[..|s| - 1], offset);
      InsertGoesLast(SortByOffset(s[..|s| - 1]), s[|s| - 1], offset);
    }
  }

  lemma {:induction false} SortSorts(s: seq<Layer>)
    ensures Sorted(SortByOffset(s))
  {
    if s != [] {
      SortSorts(s[..|s| - 1]);
      InsertSorts(SortByOffset(s[..|s| - 1]), s[|s| - 1]);
    }
  }

  /** In a sorted sequence the last layer starts last. */
  lemma LastIsLast(s: seq<Layer>, x: Layer)
    requires Sorted(s) && s != [] && x in s
    ensures x.meta.offset <= s[|s| - 1].meta.offset
    ensures StrictlySorted(s) && x.meta.offset == s[|s| - 1].meta.offset ==> x == s[|s| - 1]
  {}

  lemma SameLast(s: seq<Layer>, t: seq<Layer>)
    requires Sorted(s) && StrictlySorted(t) && multiset(s) == multiset(t) && s != []
    ensures |s| == |t| && s[|s| - 1] == t[|t| - 1]
    ensures multiset(s[..|s| - 1]) == multiset(t[..|t| - 1])
  {
    assert |multiset(s)| == |s| && |multiset(t)| == |t|;
    assert s[|s| - 1] in multiset(t) && t[|t| - 1] in multiset(s);
    LastIsLast(s, t[|t| - 1]);
    LastIsLast(t, s[|s| - 1]);
    LastApart(s);
    LastApart(t);
    assert multiset(s[..|s| - 1]) == multiset(s) - multiset{s[|s| - 1]};
  }

  lemma {:induction false} OnlyOneOrder(s: seq<Layer>, t: seq<Layer>)
    requires Sorted(s) && StrictlySorted(t) && multiset(s) == multiset(t)
    ensures s == t
  {
    if s == [] {
      assert |multiset(t)| == |t|;
    } else {
      var n := |s| - 1;
      SameLast(s, t);
      OnlyOneOrder(s[..n], t[..n]);
      assert s == s[..n] + [s[n]] && t == t[..n] + [t[n]];
    }
  }

  lemma SortRestoresOrder(shuffled: seq<Layer>, t: seq<Layer>)
    requires StrictlySorted(t) && multiset(shuffled) == multiset(t)
    ensures SortByOffset(shuffled) == t
  {
    SortPermutes(shuffled);
    SortSorts(shuffled);
    OnlyOneOrder(SortByOffset(shuffled), t);
  }

  lemma LayersAscend(f: seq<byte>)
    ensures StrictlySorted(LayersOf(f))
  {}

  lemma JoinedWhole(f: seq<byte>)
    ensures Joined(LayersOf(f)) == f
  {
    JoinedLayers(f, LayerCount(|f|));
    assert f[..|f|] == f;
  }

  /** Whatever order the layers of a file come in, reassembly gives the file. */
  lemma ReassemblyRestores(f: seq<byte>, shuffled: seq<Layer>)
    requires multiset(shuffled) == multiset(LayersOf(f))
    ensures SortByOffset(shuffled) == LayersOf(f)
    ensures Joined(SortByOffset(shuffled)) == f
  {
    LayersAscend(f);
    SortRestoresOrder(shuffled, LayersOf(f));
    JoinedWhole(f);
  }

  // ---- The delta -------------------------------------------------------------

  /** The destination has a layer with the same offset and hash. */
  predicate Has(des: seq<Layer>, x: Layer) {
    exists i :: 0 <= i < |des| && des[i].meta == x.meta
  }

  /** The source layers the destination does not have, in order. */
  function Changed(src: seq<Layer>, des: seq<Layer>): seq<Layer> {
    if src == [] then []
    else
      var n := |src| - 1;
      Changed(src[..n], des) + if Has(des, src[n]) then [] else [src[n]]
  }

  method CompareLayers(src: seq<Layer>, des: seq<Layer>) returns (changed: seq<Layer>)
    ensures changed == Changed(src, des)
  {
    changed := [];
    for k := 0 to |src|
      invariant changed == Changed(src[..k], des)
    {
      assert src[..k + 1][..k] == src[..k];
      var found := false;
      for i := 0 to |des|
        invariant found <==> exists j :: 0 <= j < i && des[j].meta == src[k].meta
      {
        if des[i].meta.offset == src[k].meta.offset && des[i].meta.hash == src[k].meta.hash {
          found := true;
        }
      }
      if !found {
        changed := changed + [src[k]];
      }
    }
    assert src[..|src|] == src;
  }

  function FindAt(layers: seq<Layer>, offset: nat): (r: Option<Layer>)
    ensures r.Some? ==> r.value in layers && r.value.meta.offset == offset
    ensures r.None? ==> forall x :: x in layers ==> x.meta.offset != offset
  {
    if layers == [] then None
    else if layers[0].meta.offset == offset then Some(layers[0])
    else FindAt(layers[1..], offset)
  }

  /** At each offset of the new file, the changed layer if there is one, otherwise the
      old file's layer. */
  function Patched(changed: seq<Layer>, old_: seq<Layer>, metas: seq<LayerMeta>): seq<Option<Layer>> {
    seq(|metas|, i requires 0 <= i < |metas| =>
      match FindAt(changed, metas[i].offset)
      case Some(x) => Some(x)
      case None => FindAt(old_, metas[i].offset))
  }

  lemma {:induction false} InChanged(src: seq<Layer>, des: seq<Layer>, x: Layer)
    ensures x in Changed(src, des) <==> x in src && !Has(des, x)
  {
    if src != [] {
      var n := |src| - 1;
      InChanged(src[..n], des, x);
      assert src == src[..n] + [src[n]];
    }
  }

  /** Two layers of one file at the same offset are the same layer. */
  lemma OneLayerPerOffset(f: seq<byte>, x: Layer, y: Layer)
    requires x in LayersOf(f) && y in LayersOf(f) && x.meta.offset == y.meta.offset
    ensures x == y
  {}

  lemma PatchRebuildsAt(f: seq<byte>, g: seq<byte>, i: nat)
    requires i < LayerCount(|f|)
    ensures Patched(Changed(LayersOf(f), LayersOf(g)), LayersOf(g), Metas(LayersOf(f)))[i] == Some(LayersOf(f)[i])
  {
    var src, des := LayersOf(f), LayersOf(g);
    var changed, x := Changed(src, des), src[i];
    InChanged(src, des, x);
    var found := FindAt(changed, x.meta.offset);
    if found.Some? {
      InChanged(src, des, found.value);
      OneLayerPerOffset(f, found.value, x);
    } else {
      assert x !in changed;
      var j :| 0 <= j < |des| && des[j].meta == x.meta;
      var other := FindAt(des, x.meta.offset);
      assert des[j] in des;
      OneLayerPerOffset(g, other.value, des[j]);
      assert des[j].data == x.data;
    }
  }

  function Size(layers: seq<Layer>): nat {
    |Joined(layers)|
  }

  /** The source layers that are reused instead of sent. */
  function Reused(src: seq<Layer>, des: seq<Layer>): seq<Layer> {
    if src == [] then []
    else
      var n := |src| - 1;
      Reused(src[..n], des) + if Has(des, src[n]) then [src[n]] else []
  }

  lemma JoinedSnoc(s: seq<Layer>, x: Layer)
    ensures Joined(s + [x]) == Joined(s) + x.data
  {
    assert (s + [x])[..|s|] == s;
  }

  lemma {:induction false} SentPlusReused(src: seq<Layer>, des: seq<Layer>)
    ensures Size(Changed(src, des)) + Size(Reused(src, des)) == Size(src)
  {
    if src != [] {
      var n := |src| - 1;
      SentPlusReused(src[..n], des);
      JoinedSnoc(Changed(src[..n], des), src[n]);
      JoinedSnoc(Reused(src[..n], des), src[n]);
      assert Changed(src[..n], des) + [] == Changed(src[..n], des);
      assert Reused(src[..n], des) + [] == Reused(src[..n], des);
    }
  }

  function Values(found: seq<Option<Layer>>): (layers: seq<Layer>)
    requires forall i :: 0 <= i < |found| ==> found[i].Some?
    ensures |layers| == |found|
  {
    seq(|found|, i requires 0 <= i < |found| => found[i].value)
  }

  /** What the receiver of a delta puts together, from the changed layers it is sent,
      the old file and the metadata of the new one. */
  function Delta(f: seq<byte>, g: seq<byte>): seq<Option<Layer>> {
    Patched(Changed(LayersOf(f), LayersOf(g)), LayersOf(g), Metas(LayersOf(f)))
  }

  /** Sending only the changed layers is enough: a layer is found at every offset,
      together they rebuild the new file, and what is sent and what is reused add up
      to it. */
  lemma DeltaRebuilds(f: seq<byte>, g: seq<byte>)
    ensures forall i :: 0 <= i < |Delta(f, g)| ==> Delta(f, g)[i].Some?
    ensures Joined(SortByOffset(Values(Delta(f, g)))) == f
    ensures Size(Changed(LayersOf(f), LayersOf(g))) + Size(Reused(LayersOf(f), LayersOf(g))) == |f|
  {
    forall i | 0 <= i < LayerCount(|f|) ensures Delta(f, g)[i] == Some(LayersOf(f)[i]) { PatchRebuildsAt(f, g, i); }
    assert Values(Delta(f, g)) == LayersOf(f);
    ReassemblyRestores(f, LayersOf(f));
    SentPlusReused(LayersOf(f), LayersOf(g));
    JoinedWhole(f);
  }

  /** f and g are equally long and agree outside [a, b). */
  ghost predicate DifferOnlyIn(f: seq<byte>, g: seq<byte>, a: nat, b: nat) {
    |f| == |g| && forall p :: 0 <= p < |f| && !(a <= p < b) ==> f[p] == g[p]
  }

  lemma UntouchedLayer(f: seq<byte>, g: seq<byte>, a: nat, b: nat, i: nat)
    requires DifferOnlyIn(f, g, a, b) && a < b && i < LayerCount(|f|)
    requires !(a / LAYER_SIZE <= i <= (b - 1) / LAYER_SIZE)
    ensures LayersOf(f)[i] == LayersOf(g)[i] && Has(LayersOf(g), LayersOf(f)[i])
  {
    var lo := i * LAYER_SIZE;
    var hi := Min(lo + LAYER_SIZE, |f|);
    assert hi <= a || b <= lo;
    assert f[lo..hi] == g[lo..hi];
    assert LayersOf(g)[i].meta == LayersOf(f)[i].meta;
  }

  lemma {:induction false} ChangedAtMost(src: seq<Layer>, des: seq<Layer>, lo: nat, hi: nat)
    requires lo <= hi + 1
    requires forall i :: 0 <= i < |src| && !(lo <= i <= hi) ==> Has(des, src[i])
    ensures |Changed(src, des)| <= if |src| <= lo then 0 else Min(|src|, hi + 1) - lo
  {
    if src != [] { ChangedAtMost(src[..|src| - 1], des, lo, hi); }
  }

  /** An edit inside [a, b) re-sends only layers that touch it. */
  lemma EditLocality(f: seq<byte>, g: seq<byte>, a: nat, b: nat)
    requires DifferOnlyIn(f, g, a, b) && a < b
    ensures forall x :: x in Changed(LayersOf(f), LayersOf(g)) ==>
              exists i :: a / LAYER_SIZE <= i <= (b - 1) / LAYER_SIZE && i < LayerCount(|f|) && LayersOf(f)[i] == x
    ensures |Changed(LayersOf(f), LayersOf(g))| <= (b - 1) / LAYER_SIZE - a / LAYER_SIZE + 1
  {
    var src, des := LayersOf(f), LayersOf(g);
    var lo, hi := a / LAYER_SIZE, (b - 1) / LAYER_SIZE;
    assert lo <= hi;
    forall i | 0 <= i < |src| && !(lo <= i <= hi) ensures Has(des, src[i]) { UntouchedLayer(f, g, a, b, i); }
    ChangedAtMost(src, des, lo, hi);
    forall x | x in Changed(src, des) ensures exists i :: lo <= i <= hi && i < LayerCount(|f|) && src[i] == x {
      InChanged(src, des, x);
      var i :| 0 <= i < |src| && src[i] == x;
    }
  }
}
