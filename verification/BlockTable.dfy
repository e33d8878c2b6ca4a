/** Splitting a session's cache into fixed-size token blocks, and merging them back in any order. */
module BlockTable {
  import opened Types
  import opened Sorting
  import RawBinary

  /** One token's slice of a tensor: the bytes of dim numbers for each head. */
  type Plane = seq<seq<bv8>>

  /** A tensor cut along its token axis. */
  datatype PlaneTensor = PlaneTensor(heads: nat, dim: nat, float: RawBinary.Float, planes: seq<Plane>) {
    function Slice(start: nat, end: nat): PlaneTensor {
      this.(planes := planes[Clip(start)..if Clip(start) <= Clip(end) then Clip(end) else Clip(start)])
    }

    /** Slicing past the end stops at the end. */
    function Clip(i: nat): (r: nat)
      ensures r <= |planes|
    {
      if i <= |planes| then i else |planes|
    }

    function Nbytes(): nat {
      |planes| * PlaneBytes()
    }

    function PlaneBytes(): nat {
      heads * dim * RawBinary.ItemSize(float)
    }
  }

  type KvDict = map<nat, (PlaneTensor, PlaneTensor)>

  datatype CacheBlock = CacheBlock(blockId: nat, layerData: KvDict, tokenCount: nat, blockIndex: nat)

  function SliceAll(kv: KvDict, start: nat, end: nat): KvDict {
    map l | l in kv :: (kv[l].0.Slice(start, end), kv[l].1.Slice(start, end))
  }

  function Min(a: nat, b: nat): nat {
    if a <= b then a else b
  }

  /** Blocks for the tokens from `start` on, the first of them numbered `index`. */
  function BlocksFrom(kv: KvDict, tokens: nat, size: nat, start: nat, index: nat): seq<CacheBlock>
    requires size >= 1
    decreases tokens - start
  {
    if start >= tokens then []
    else
      var end := Min(start + size, tokens);
      var block := CacheBlock(index, SliceAll(kv, start, end), end - start, index);
      [block] + BlocksFrom(kv, tokens, size, start + size, index + 1)
  }

  /** The token count is read off layer 0's keys. */
  function Split(kv: KvDict, size: nat): seq<CacheBlock>
    requires size >= 1 && (kv != map[] ==> 0 in kv)
  {
    if kv == map[] then [] else BlocksFrom(kv, |kv[0].0.planes|, size, 0, 0)
  }

  // ---- Sorting by logical position ----

  predicate Earlier(a: CacheBlock, b: CacheBlock) {
    a.blockIndex < b.blockIndex
  }

  function Ordered(blocks: seq<CacheBlock>): seq<CacheBlock> {
    Sort(blocks, Earlier)
  }

  // ---- Merging ----

  /** Concatenation along the token axis; None where shapes or dtypes disagree. */
  function Concatenate(parts: seq<PlaneTensor>): Option<PlaneTensor>
    requires parts != []
  {
    if |parts| == 1 then Some(parts[0])
    else
      match Concatenate(parts[1..])
      case None => None
      case Some(rest) =>
        if parts[0].heads == rest.heads && parts[0].dim == rest.dim && parts[0].float == rest.float then
          Some(parts[0].(planes := parts[0].planes + rest.planes))
        else None
  }

  predicate AllHave(blocks: seq<CacheBlock>, layer: nat) {
    forall b | b in blocks :: layer in b.layerData
  }

  function Keys(blocks: seq<CacheBlock>, layer: nat): seq<PlaneTensor>
    requires AllHave(blocks, layer)
  {
    seq(|blocks|, i requires 0 <= i < |blocks| => blocks[i].layerData[layer].0)
  }

  function Values(blocks: seq<CacheBlock>, layer: nat): seq<PlaneTensor>
    requires AllHave(blocks, layer)
  {
    seq(|blocks|, i requires 0 <= i < |blocks| => blocks[i].layerData[layer].1)
  }

  /** One layer merged; None where a block lacks it or its tensors cannot be concatenated. */
  function MergedLayer(ordered: seq<CacheBlock>, layer: nat): Option<(PlaneTensor, PlaneTensor)>
    requires ordered != []
  {
    if !AllHave(ordered, layer) then None
    else
      var k, v := Concatenate(Keys(ordered, layer)), Concatenate(Values(ordered, layer));
      if k.Some? && v.Some? then Some((k.value, v.value)) else None
  }

  /** The merged cache; None when some layer of the first block cannot be merged. */
  function ToKvDict(blocks: seq<CacheBlock>): Option<KvDict> {
    if blocks == [] then Some(map[])
    else
      SortMembers(blocks, Earlier);
      MergeAll(Ordered(blocks))
  }

  function MergeAll(ordered: seq<CacheBlock>): Option<KvDict>
    requires ordered != []
  {
    var layers := ordered[0].layerData.Keys;
    if exists l | l in layers :: MergedLayer(ordered, l).None? then None
    else Some(map l | l in layers :: MergedLayer(ordered, l).value)
  }

  lemma MergeAllIs(ordered: seq<CacheBlock>, kv: KvDict)
    requires ordered != [] && kv.Keys == ordered[0].layerData.Keys
    requires forall l :: l in kv ==> MergedLayer(ordered, l) == Some(kv[l])
    ensures MergeAll(ordered) == Some(kv)
  {
    hide MergedLayer;
    assert kv == map l | l in kv.Keys :: MergedLayer(ordered, l).value;
  }

  // ---- The table ----

  class CacheBlockTable {
    var blocks: seq<CacheBlock>

    constructor (blocks: seq<CacheBlock>)
      ensures this.blocks == blocks
    {
      this.blocks := blocks;
    }

    method AddBlock(block: CacheBlock)
      modifies this
      ensures blocks == old(blocks) + [block]
    {
      blocks := blocks + [block];
    }

    method TotalSizeBytes() returns (total: nat)
      ensures total == SizeOf(blocks)
    {
      total := 0;
      for i := 0 to |blocks|
        invariant total + SizeOf(blocks[i..]) == SizeOf(blocks)
      {
        assert blocks[i..][1..] == blocks[i + 1..];
        var data := blocks[i].layerData;
        var left := data;
        ghost var before := total;
        while left != map[]
          invariant total + LayersSize(left) == before + LayersSize(data)
          decreases |left|
        {
          var l :| l in left;
          LayersSizeRemove(left, l);
          total := total + left[l].0.Nbytes() + left[l].1.Nbytes();
          left := left - {l};
        }
      }
    }

    /** Collects each layer's pieces block by block, then concatenates them. */
    method ToKv() returns (kv: Option<KvDict>)
      ensures kv == ToKvDict(blocks)
    {
      if blocks == [] {
        return Some(map[]);
      }
      hide MergedLayer;
      hide Ordered;
      SortMembers(blocks, Earlier);
      var ordered := Ordered(blocks);
      var left := ordered[0].layerData.Keys;
      ghost var layers := left;
      var result: KvDict := map[];
      while left != {}
        invariant left <= layers && result.Keys == layers - left
        invariant forall l :: l in result ==> MergedLayer(ordered, l) == Some(result[l])
      {
        var l :| l in left;
        var merged := MergeLayer(ordered, l);
        if merged.None? {
          return None;
        }
        result := result[l := merged.value];
        left := left - {l};
      }
      MergeAllIs(ordered, result);
      kv := Some(result);
    }

    static method MergeLayer(ordered: seq<CacheBlock>, layer: nat) returns (merged: Option<(PlaneTensor, PlaneTensor)>)
      requires ordered != []
      ensures merged == MergedLayer(ordered, layer)
    {
      var ks, vs := [], [];
      for i := 0 to |ordered|
        invariant AllHave(ordered[..i], layer)
        invariant ks == Keys(ordered[..i], layer) && vs == Values(ordered[..i], layer)
      {
        if layer !in ordered[i].layerData {
          return None;
        }
        assert ordered[..i + 1] == ordered[..i] + [ordered[i]];
        var (k, v) := ordered[i].layerData[layer];
        ks, vs := ks + [k], vs + [v];
      }
      assert ordered[..|ordered|] == ordered;
      var k, v := Concatenate(ks), Concatenate(vs);
      merged := if k.Some? && v.Some? then Some((k.value, v.value)) else None;
    }

    /** Slices block by block; None where the source raises KeyError for a missing layer 0. */
    static method FromKvDict(kv: KvDict, blockSize: nat) returns (table: Option<CacheBlockTable>)
      requires blockSize >= 1
      ensures table.None? <==> kv != map[] && 0 !in kv
      ensures table.Some? ==> fresh(table.value) && table.value.blocks == Split(kv, blockSize)
    {
      hide SliceAll;
      hide BlocksFrom;
      if kv == map[] {
        var empty := new CacheBlockTable([]);
        return Some(empty);
      }
      if 0 !in kv {
        return None;
      }
      var total := |kv[0].0.planes|;
      var numBlocks := (total + blockSize - 1) / blockSize;
      var blocks := [];
      for i := 0 to numBlocks
        invariant blocks + BlocksFrom(kv, total, blockSize, i * blockSize, i) == BlocksFrom(kv, total, blockSize, 0, 0)
      {
        BlockStarts(total, blockSize, i);
        NextBlock(kv, total, blockSize, i * blockSize, i);
        var start := i * blockSize;
        var end := Min(start + blockSize, total);
        blocks := blocks + [CacheBlock(i, SliceAll(kv, start, end), end - start, i)];
      }
      BlocksEnd(total, blockSize);
      NoMoreBlocks(kv, total, blockSize, numBlocks * blockSize, numBlocks);
      assert blocks + [] == blocks;
      var full := new CacheBlockTable(blocks);
      table := Some(full);
    }
  }

  lemma NextBlock(kv: KvDict, tokens: nat, size: nat, start: nat, index: nat)
    requires size >= 1 && start < tokens
    ensures var end := Min(start + size, tokens);
      BlocksFrom(kv, tokens, size, start, index)
      == [CacheBlock(index, SliceAll(kv, start, end), end - start, index)]
         + BlocksFrom(kv, tokens, size, start + size, index + 1)
  {
  }

  lemma NoMoreBlocks(kv: KvDict, tokens: nat, size: nat, start: nat, index: nat)
    requires size >= 1 && start >= tokens
    ensures BlocksFrom(kv, tokens, size, start, index) == []
  {
  }

  lemma BlockStarts(tokens: nat, size: nat, i: nat)
    requires size >= 1 && i < (tokens + size - 1) / size
    ensures i * size < tokens && (i + 1) * size == i * size + size
  {
    assert (tokens + size - 1) / size * size <= tokens + size - 1;
    assert (i + 1) * size <= (tokens + size - 1) / size * size;
  }

  lemma BlocksEnd(tokens: nat, size: nat)
    requires size >= 1
    ensures (tokens + size - 1) / size * size >= tokens
  {
  }

  // ---- Sizes ----

  ghost function LayersSize(kv: KvDict): nat {
    if kv == map[] then 0
    else
      var l :| l in kv;
      kv[l].0.Nbytes() + kv[l].1.Nbytes() + LayersSize(kv - {l})
  }

  lemma {:induction false} LayersSizeRemove(kv: KvDict, l: nat)
    requires l in kv
    ensures LayersSize(kv) == kv[l].0.Nbytes() + kv[l].1.Nbytes() + LayersSize(kv - {l})
    decreases |kv|
  {
    var j :| j in kv && LayersSize(kv) == kv[j].0.Nbytes() + kv[j].1.Nbytes() + LayersSize(kv - {j});
    if j != l {
      LayersSizeRemove(kv - {j}, l);
      LayersSizeRemove(kv - {l}, j);
      assert kv - {j} - {l} == kv - {l} - {j};
    }
  }

  ghost function SizeOf(blocks: seq<CacheBlock>): nat {
    if blocks == [] then 0 else LayersSize(blocks[0].layerData) + SizeOf(blocks[1..])
  }

  function TotalTokens(blocks: seq<CacheBlock>): nat {
    if blocks == [] then 0 else blocks[0].tokenCount + TotalTokens(blocks[1..])
  }

  /** Shapes and dtypes against a model configuration; only key shapes are looked at. */
  predicate Validate(blocks: seq<CacheBlock>, config: RawBinary.ModelConfig) {
    forall b | b in blocks :: ValidBlock(b, config)
  }

  predicate ValidBlock(b: CacheBlock, config: RawBinary.ModelConfig) {
    && |b.layerData| == config.numLayers
    && forall l | l in b.layerData ::
         var (k, v) := b.layerData[l];
         && k.float == RawBinary.WireFloat(config.dtype) && v.float == RawBinary.WireFloat(config.dtype)
         && k.heads == config.numHeads && k.dim == config.headDim && |k.planes| == b.tokenCount
  }

  // ---- Splitting conserves ----

  /** Every tensor of the cache spans the same tokens. */
  ghost predicate Uniform(kv: KvDict, tokens: nat) {
    forall l :: l in kv ==> |kv[l].0.planes| == tokens && |kv[l].1.planes| == tokens
  }

  /** The blocks hold all the tokens; all but the last are full, the last is not empty; they are numbered in order. */
  lemma {:induction false} SplitConserves(kv: KvDict, tokens: nat, size: nat, start: nat, index: nat)
    requires size >= 1
    ensures var blocks := BlocksFrom(kv, tokens, size, start, index);
      && TotalTokens(blocks) == (if start < tokens then tokens - start else 0)
      && (forall i :: 0 <= i < |blocks| ==> blocks[i].blockIndex == blocks[i].blockId == index + i)
      && (forall i :: 0 <= i < |blocks| - 1 ==> blocks[i].tokenCount == size)
      && (forall i :: 0 <= i < |blocks| ==> 1 <= blocks[i].tokenCount <= size)
    decreases tokens - start
  {
    if start < tokens {
      SplitConserves(kv, tokens, size, start + size, index + 1);
    }
  }

  /** As many blocks as the manager's index entries count for that many tokens. */
  lemma {:induction false} SplitCount(kv: KvDict, tokens: nat, size: nat, start: nat, index: nat)
    requires size >= 1 && start <= tokens + size - 1
    ensures |BlocksFrom(kv, tokens, size, start, index)| == (tokens - start + size - 1) / size
    decreases tokens - start
  {
    if start < tokens {
      NextBlock(kv, tokens, size, start, index);
      SplitCount(kv, tokens, size, start + size, index + 1);
      OneMoreDivides(tokens - start - 1, size);
    } else {
      NoMoreBlocks(kv, tokens, size, start, index);
    }
  }

  lemma OneMoreDivides(n: nat, size: nat)
    requires size >= 1
    ensures (n + size) / size == n / size + 1
  {
    var q, r, p, t := n / size, n % size, (n + size) / size, (n + size) % size;
    assert n == size * q + r && n + size == size * p + t;
    SmallMultiple(size, p - q - 1, r - t);
  }

  lemma SmallMultiple(size: int, k: int, d: int)
    requires size * k == d && -size < d < size
    ensures k == 0
  {
  }

  lemma {:induction false} SliceSize(kv: KvDict, a: nat, b: nat, c: nat)
    requires forall l :: l in kv ==> a <= b <= c && c <= |kv[l].0.planes| && c <= |kv[l].1.planes|
    ensures LayersSize(SliceAll(kv, a, c)) == LayersSize(SliceAll(kv, a, b)) + LayersSize(SliceAll(kv, b, c))
    decreases |kv|
  {
    if kv == map[] {
      assert SliceAll(kv, a, c) == map[] && SliceAll(kv, a, b) == map[] && SliceAll(kv, b, c) == map[];
    } else {
      var l :| l in kv;
      SliceSize(kv - {l}, a, b, c);
      SliceWithout(kv, a, c, l);
      SliceWithout(kv, a, b, l);
      SliceWithout(kv, b, c, l);
      SliceBytes(kv[l].0, a, b, c);
      SliceBytes(kv[l].1, a, b, c);
    }
  }

  lemma SliceWithout(kv: KvDict, a: nat, b: nat, l: nat)
    requires l in kv
    ensures var s := SliceAll(kv, a, b);
      LayersSize(s) == s[l].0.Nbytes() + s[l].1.Nbytes() + LayersSize(SliceAll(kv - {l}, a, b))
  {
    LayersSizeRemove(SliceAll(kv, a, b), l);
    assert SliceAll(kv - {l}, a, b) == SliceAll(kv, a, b) - {l};
  }

  lemma SliceBytes(t: PlaneTensor, a: nat, b: nat, c: nat)
    requires a <= b <= c <= |t.planes|
    ensures t.Slice(a, c).Nbytes() == t.Slice(a, b).Nbytes() + t.Slice(b, c).Nbytes()
  {
  }

  /** The blocks hold all the bytes. */
  lemma {:induction false} SplitConservesBytes(kv: KvDict, tokens: nat, size: nat, start: nat, index: nat)
    requires size >= 1 && Uniform(kv, tokens)
    ensures SizeOf(BlocksFrom(kv, tokens, size, start, index)) == LayersSize(SliceAll(kv, Min(start, tokens), tokens))
    decreases tokens - start
  {
    if start < tokens {
      var end := Min(start + size, tokens);
      SplitConservesBytes(kv, tokens, size, start + size, index + 1);
      SliceSize(kv, start, end, tokens);
      var blocks := BlocksFrom(kv, tokens, size, start, index);
      assert blocks[0].layerData == SliceAll(kv, start, end);
      assert blocks[1..] == BlocksFrom(kv, tokens, size, start + size, index + 1);
    } else {
      NothingSliced(kv, tokens);
    }
  }

  lemma {:induction false} NothingSliced(kv: KvDict, tokens: nat)
    requires Uniform(kv, tokens)
    ensures LayersSize(SliceAll(kv, tokens, tokens)) == 0
    decreases |kv|
  {
    if kv == map[] {
      assert SliceAll(kv, tokens, tokens) == map[];
    } else {
      var l :| l in kv;
      NothingSliced(kv - {l}, tokens);
      SliceWithout(kv, tokens, tokens, l);
    }
  }

  /** As many layers as configured, of the configured dtype, with keys of the configured shape. */
  ghost predicate Matches(kv: KvDict, config: RawBinary.ModelConfig) {
    && |kv| == config.numLayers
    && forall l :: l in kv ==>
         && kv[l].0.float == RawBinary.WireFloat(config.dtype) && kv[l].1.float == RawBinary.WireFloat(config.dtype)
         && kv[l].0.heads == config.numHeads && kv[l].0.dim == config.headDim
  }

  /** A block table passes validation when the cache it was split from matches the configuration. */
  lemma {:induction false} SplitIsValid(kv: KvDict, tokens: nat, size: nat, start: nat, index: nat,
          config: RawBinary.ModelConfig)
    requires size >= 1 && Uniform(kv, tokens) && Matches(kv, config)
    ensures Validate(BlocksFrom(kv, tokens, size, start, index), config)
    decreases tokens - start
  {
    hide BlocksFrom;
    hide ValidBlock;
    if start < tokens {
      var end := Min(start + size, tokens);
      SplitIsValid(kv, tokens, size, start + size, index + 1, config);
      NextBlock(kv, tokens, size, start, index);
      SliceIsValid(kv, tokens, start, end, index, config);
    } else {
      NoMoreBlocks(kv, tokens, size, start, index);
    }
  }

  lemma SliceIsValid(kv: KvDict, tokens: nat, start: nat, end: nat, index: nat, config: RawBinary.ModelConfig)
    requires start <= end <= tokens && Uniform(kv, tokens) && Matches(kv, config)
    ensures ValidBlock(CacheBlock(index, SliceAll(kv, start, end), end - start, index), config)
  {
    hide RawBinary.WireFloat;
    var data := SliceAll(kv, start, end);
    assert data.Keys == kv.Keys && |data.Keys| == |data| && |kv.Keys| == |kv|;
  }

  // ---- Merging what was split, in any order ----

  ghost predicate StrictlyOrdered(blocks: seq<CacheBlock>) {
    forall i, j :: 0 <= i < j < |blocks| ==> blocks[i].blockIndex < blocks[j].blockIndex
  }

  ghost predicate DistinctPositions(blocks: seq<CacheBlock>) {
    forall i, j :: 0 <= i < j < |blocks| ==> blocks[i].blockIndex != blocks[j].blockIndex
  }

  lemma OrderedIsStrict(blocks: seq<CacheBlock>)
    requires DistinctPositions(blocks)
    ensures StrictlyOrdered(Ordered(blocks))
  {
    SortInOrder(blocks, Earlier);
    SortKeepsApart(blocks);
  }

  lemma {:induction false} SortKeepsApart(blocks: seq<CacheBlock>)
    requires DistinctPositions(blocks)
    ensures DistinctPositions(Ordered(blocks))
  {
    if blocks != [] {
      var init, last := blocks[..|blocks| - 1], blocks[|blocks| - 1];
      SortKeepsApart(init);
      SortMembers(init, Earlier);
      assert forall x :: x in Ordered(init) ==> x.blockIndex != last.blockIndex;
      InsertKeepsApart(last, Ordered(init));
    }
  }

  lemma {:induction false} InsertKeepsApart(b: CacheBlock, sorted: seq<CacheBlock>)
    requires DistinctPositions(sorted) && forall x :: x in sorted ==> x.blockIndex != b.blockIndex
    ensures DistinctPositions(Insert(b, sorted, Earlier))
  {
    if sorted != [] && !Earlier(b, sorted[0]) {
      var rest := Insert(b, sorted[1..], Earlier);
      InsertKeepsApart(b, sorted[1..]);
      InsertMembers(b, sorted[1..], Earlier);
      assert forall j :: 0 <= j < |rest| ==> rest[j] in rest;
    }
  }

  /** n strictly increasing positions below n are 0, 1, 2, ... */
  lemma {:induction false} PositionsAreIndices(blocks: seq<CacheBlock>, i: nat)
    requires StrictlyOrdered(blocks) && i < |blocks|
    requires forall b :: b in blocks ==> b.blockIndex < |blocks|
    ensures blocks[i].blockIndex == i
  {
    AtLeast(blocks, i);
    AtMost(blocks, i);
  }

  lemma {:induction false} AtLeast(blocks: seq<CacheBlock>, i: nat)
    requires StrictlyOrdered(blocks) && i < |blocks|
    ensures blocks[i].blockIndex >= i
  {
    if i > 0 {
      AtLeast(blocks, i - 1);
    }
  }

  lemma {:induction false} AtMost(blocks: seq<CacheBlock>, i: nat)
    requires StrictlyOrdered(blocks) && i < |blocks|
    requires forall b :: b in blocks ==> b.blockIndex < |blocks|
    ensures blocks[i].blockIndex <= i
    decreases |blocks| - i
  {
    if i + 1 < |blocks| {
      AtMost(blocks, i + 1);
    } else {
      assert blocks[i] in blocks;
    }
  }

  /** The same blocks in another order. */
  ghost predicate Shuffled(blocks: seq<CacheBlock>, shuffled: seq<CacheBlock>, order: seq<nat>) {
    && |order| == |shuffled| == |blocks| && NoDup(order)
    && forall i :: 0 <= i < |order| ==> order[i] < |blocks| && shuffled[i] == blocks[order[i]]
  }

  /** Sorting undoes any shuffle of blocks numbered 0, 1, 2, ... */
  lemma SortUndoesShuffle(blocks: seq<CacheBlock>, shuffled: seq<CacheBlock>, order: seq<nat>)
    requires Shuffled(blocks, shuffled, order)
    requires forall i :: 0 <= i < |blocks| ==> blocks[i].blockIndex == i
    ensures Ordered(shuffled) == blocks
  {
    OrderedIsStrict(shuffled);
    SortMembers(shuffled, Earlier);
    var sorted := Ordered(shuffled);
    forall b | b in sorted
      ensures b.blockIndex < |blocks| && b == blocks[b.blockIndex]
    {
      var i :| 0 <= i < |shuffled| && shuffled[i] == b;
    }
    forall i | 0 <= i < |sorted|
      ensures sorted[i] == blocks[i]
    {
      PositionsAreIndices(sorted, i);
      assert sorted[i] in sorted;
    }
  }

  lemma {:induction false} PiecesJoin(t: PlaneTensor, tokens: nat, size: nat, start: nat)
    requires size >= 1 && start < tokens == |t.planes|
    ensures Pieces(t, tokens, size, start) != []
    ensures Concatenate(Pieces(t, tokens, size, start)) == Some(t.(planes := t.planes[start..]))
    decreases tokens - start
  {
    var end := Min(start + size, tokens);
    var pieces := Pieces(t, tokens, size, start);
    if start + size < tokens {
      PiecesJoin(t, tokens, size, start + size);
      assert pieces[1..] == Pieces(t, tokens, size, start + size);
      assert t.planes[start..end] + t.planes[end..] == t.planes[start..];
    } else {
      assert Pieces(t, tokens, size, start + size) == [];
      assert pieces == [t.Slice(start, end)] + [] == [t.Slice(start, end)];
      assert t.planes[start..end] == t.planes[start..];
    }
  }

  /** What the blocks hold of one tensor. */
  function Pieces(t: PlaneTensor, tokens: nat, size: nat, start: nat): seq<PlaneTensor>
    requires size >= 1
    decreases tokens - start
  {
    if start >= tokens then [] else [t.Slice(start, Min(start + size, tokens))] + Pieces(t, tokens, size, start + size)
  }

  lemma {:induction false} BlocksHoldPieces(kv: KvDict, tokens: nat, size: nat, start: nat, index: nat, l: nat)
    requires size >= 1 && l in kv
    ensures var blocks := BlocksFrom(kv, tokens, size, start, index);
      && AllHave(blocks, l)
      && Keys(blocks, l) == Pieces(kv[l].0, tokens, size, start)
      && Values(blocks, l) == Pieces(kv[l].1, tokens, size, start)
    decreases tokens - start
  {
    hide BlocksFrom;
    if start < tokens {
      var later := BlocksFrom(kv, tokens, size, start + size, index + 1);
      BlocksHoldPieces(kv, tokens, size, start + size, index + 1, l);
      NextBlock(kv, tokens, size, start, index);
      var end := Min(start + size, tokens);
      OneMoreBlock(CacheBlock(index, SliceAll(kv, start, end), end - start, index), later, l);
    } else {
      NoMoreBlocks(kv, tokens, size, start, index);
    }
  }

  lemma OneMoreBlock(b: CacheBlock, later: seq<CacheBlock>, l: nat)
    requires l in b.layerData && AllHave(later, l)
    ensures AllHave([b] + later, l)
    ensures Keys([b] + later, l) == [b.layerData[l].0] + Keys(later, l)
    ensures Values([b] + later, l) == [b.layerData[l].1] + Values(later, l)
  {
  }

  /** Merging any permutation of the blocks of a cache gives the cache back. */
  lemma BlockRoundTrip(kv: KvDict, size: nat, shuffled: seq<CacheBlock>, order: seq<nat>)
    requires size >= 1 && 0 in kv && |kv[0].0.planes| >= 1 && Uniform(kv, |kv[0].0.planes|)
    requires Shuffled(Split(kv, size), shuffled, order)
    ensures ToKvDict(shuffled) == Some(kv)
  {
    var tokens, blocks := |kv[0].0.planes|, Split(kv, size);
    SplitConserves(kv, tokens, size, 0, 0);
    SortUndoesShuffle(blocks, shuffled, order);
    NextBlock(kv, tokens, size, 0, 0);
    assert blocks[0].layerData.Keys == kv.Keys;
    hide BlocksFrom;
    forall l | l in kv
      ensures MergedLayer(blocks, l) == Some(kv[l])
    {
      LayerRoundTrip(kv, size, l);
    }
    hide MergedLayer;
    MergeAllIs(blocks, kv);
  }

  lemma LayerRoundTrip(kv: KvDict, size: nat, l: nat)
    requires size >= 1 && 0 in kv && |kv[0].0.planes| >= 1 && Uniform(kv, |kv[0].0.planes|) && l in kv
    ensures Split(kv, size) != [] && MergedLayer(Split(kv, size), l) == Some(kv[l])
  {
    var tokens := |kv[0].0.planes|;
    BlocksHoldPieces(kv, tokens, size, 0, 0, l);
    PiecesJoin(kv[l].0, tokens, size, 0);
    PiecesJoin(kv[l].1, tokens, size, 0);
    NextBlock(kv, tokens, size, 0, 0);
    hide BlocksFrom;
    hide Concatenate;
    assert kv[l].0.planes[0..] == kv[l].0.planes && kv[l].1.planes[0..] == kv[l].1.planes;
  }
}
