/** What a block table that passes validation guarantees, and what it does not. */
module Validation {
  import opened Types
  import opened BlockTable
  import RawBinary

  /** The blocks of a cache pass exactly when the cache matches the configuration. */
  lemma SplitIsValidIff(kv: KvDict, tokens: nat, size: nat, config: RawBinary.ModelConfig)
    requires size >= 1 && tokens >= 1 && Uniform(kv, tokens)
    ensures Validate(BlocksFrom(kv, tokens, size, 0, 0), config) <==> Matches(kv, config)
  {
    hide Validate;
    hide BlocksFrom;
    if Matches(kv, config) {
      SplitIsValid(kv, tokens, size, 0, 0, config);
    }
    if Validate(BlocksFrom(kv, tokens, size, 0, 0), config) {
      FirstBlock(kv, tokens, size, config);
      SliceMatches(kv, if size < tokens then size else tokens, config);
    }
  }

  lemma FirstBlock(kv: KvDict, tokens: nat, size: nat, config: RawBinary.ModelConfig)
    requires size >= 1 && tokens >= 1 && Validate(BlocksFrom(kv, tokens, size, 0, 0), config)
    ensures var n := if size < tokens then size else tokens;
      ValidBlock(CacheBlock(0, SliceAll(kv, 0, n), n, 0), config)
  {
    hide ValidBlock;
    var n := if size < tokens then size else tokens;
    var blocks := BlocksFrom(kv, tokens, size, 0, 0);
    assert blocks[0] == CacheBlock(0, SliceAll(kv, 0, n), n, 0);
    assert blocks[0] in blocks;
  }

  lemma SliceMatches(kv: KvDict, n: nat, config: RawBinary.ModelConfig)
    requires ValidBlock(CacheBlock(0, SliceAll(kv, 0, n), n, 0), config)
    ensures Matches(kv, config)
  {
    var slices := SliceAll(kv, 0, n);
    assert slices.Keys == kv.Keys && |slices.Keys| == |slices| && |kv.Keys| == |kv|;
    forall l | l in kv
      ensures kv[l].0.float == RawBinary.WireFloat(config.dtype) && kv[l].1.float == RawBinary.WireFloat(config.dtype)
      ensures kv[l].0.heads == config.numHeads && kv[l].0.dim == config.headDim
    {
      assert l in slices;
    }
  }

  /** The keys of a layer that every block of a passing table has can be put together, in any order of the blocks, and
      are as many tokens as the blocks count. */
  lemma {:induction false} KeysCanBeMerged(blocks: seq<CacheBlock>, config: RawBinary.ModelConfig, layer: nat)
    requires blocks != [] && Validate(blocks, config) && AllHave(blocks, layer)
    ensures var merged := Concatenate(Keys(blocks, layer));
      && merged.Some? && merged.value.float == RawBinary.WireFloat(config.dtype)
      && merged.value.heads == config.numHeads && merged.value.dim == config.headDim
      && |merged.value.planes| == TotalTokens(blocks)
    decreases |blocks|
  {
    hide Validate;
    var rest := blocks[1..];
    FirstIsValid(blocks, config, layer);
    if rest == [] {
      assert TotalTokens(rest) == 0;
    } else {
      KeysCanBeMerged(rest, config, layer);
      assert Keys(blocks, layer)[1..] == Keys(rest, layer);
    }
  }

  lemma FirstIsValid(blocks: seq<CacheBlock>, config: RawBinary.ModelConfig, layer: nat)
    requires blocks != [] && Validate(blocks, config) && AllHave(blocks, layer)
    ensures Validate(blocks[1..], config) && AllHave(blocks[1..], layer)
    ensures layer in blocks[0].layerData
    ensures var k := blocks[0].layerData[layer].0;
      && k.float == RawBinary.WireFloat(config.dtype) && k.heads == config.numHeads && k.dim == config.headDim
      && |k.planes| == blocks[0].tokenCount
  {
    assert blocks[0] in blocks && ValidBlock(blocks[0], config);
  }

  // ---- What is not looked at ----

  const KEY := PlaneTensor(1, 1, RawBinary.F16, [[[0, 0]]])
  const WIDE := PlaneTensor(2, 1, RawBinary.F16, [[[0, 0], [0, 0]]])

  /** Values of other shapes than their keys pass, and such a table cannot be merged. */
  lemma ValidButNotMergeable()
    ensures var config := RawBinary.ModelConfig(1, 1, 1, 16, "float16");
      var blocks := [CacheBlock(0, map[0 := (KEY, KEY)], 1, 0), CacheBlock(1, map[0 := (KEY, WIDE)], 1, 1)];
      Validate(blocks, config) && MergedLayer(blocks, 0) == None && MergeAll(blocks) == None
  {
    var first, second := CacheBlock(0, map[0 := (KEY, KEY)], 1, 0), CacheBlock(1, map[0 := (KEY, WIDE)], 1, 1);
    var blocks := [first, second];
    assert Values(blocks, 0) == [KEY, WIDE] && [KEY, WIDE][1..] == [WIDE];
    assert Concatenate([KEY, WIDE]) == None;
    assert MergedLayer(blocks, 0) == None && 0 in blocks[0].layerData.Keys;
    assert first.layerData.Keys == {0} && second.layerData.Keys == {0};
    assert |first.layerData| == |first.layerData.Keys| && |second.layerData| == |second.layerData.Keys|;
  }
}
