/** The tensors of the wire format and those of the block table are the same tensors, cut differently. */
module WireBlocks {
  import opened BlockTable
  import WireProofs

  function Width(t: RawBinary.Tensor): nat {
    t.dim * RawBinary.ItemSize(t.float)
  }

  /** Row k in memory order: the bytes of one head and one token. */
  function Row(t: RawBinary.Tensor, k: nat): seq<bv8> {
    Piece(t.bytes, Width(t), k)
  }

  function Piece(bytes: seq<bv8>, width: nat, k: nat): seq<bv8> {
    if k * width + width <= |bytes| then bytes[k * width..k * width + width] else []
  }

  /** Memory order runs through the tokens of one head first; a plane collects the heads of one token. */
  function ToPlanes(t: RawBinary.Tensor): PlaneTensor {
    PlaneTensor(t.heads, t.dim, t.float, seq(t.tokens, (i: nat) => seq(t.heads, (h: nat) => Row(t, h * t.tokens + i))))
  }

  /** The row at k in memory order, found among the planes. */
  function Cell(p: PlaneTensor, k: nat): seq<bv8> {
    var n := |p.planes|;
    if n > 0 && k / n < |p.planes[k % n]| then p.planes[k % n][k / n] else []
  }

  function BytesFrom(p: PlaneTensor, k: nat): seq<bv8>
    decreases p.heads * |p.planes| - k
  {
    if k >= p.heads * |p.planes| then [] else Cell(p, k) + BytesFrom(p, k + 1)
  }

  function FromPlanes(p: PlaneTensor): RawBinary.Tensor {
    RawBinary.Tensor(p.heads, |p.planes|, p.dim, p.float, BytesFrom(p, 0))
  }

  ghost predicate Filled(t: RawBinary.Tensor) {
    |t.bytes| == t.heads * t.tokens * Width(t)
  }

  /** Byte j of token i and head h, at its place in memory order. */
  lemma PlanesAreTokens(t: RawBinary.Tensor, i: nat, h: nat, j: nat)
    requires Filled(t) && i < t.tokens && h < t.heads && j < t.dim * RawBinary.ItemSize(t.float)
    ensures var at := (h * t.tokens + i) * (t.dim * RawBinary.ItemSize(t.float)) + j;
      && at < |t.bytes| && |ToPlanes(t).planes| == t.tokens && |ToPlanes(t).planes[i]| == t.heads
      && |ToPlanes(t).planes[i][h]| == t.dim * RawBinary.ItemSize(t.float)
      && ToPlanes(t).planes[i][h][j] == t.bytes[at]
  {
    RowBelow(h, t.heads, i, t.tokens);
    PieceBounds(h * t.tokens + i, t.heads * t.tokens, Width(t));
  }

  lemma RowBelow(h: nat, heads: nat, i: nat, tokens: nat)
    requires h < heads && i < tokens
    ensures h * tokens + i < heads * tokens
  {
    assert (h + 1) * tokens <= heads * tokens;
  }

  lemma QuotientBelow(k: nat, n: nat, h: nat)
    requires n > 0 && k < h * n
    ensures k / n < h && k / n * n + k % n == k
  {
  }

  lemma CellOfPlanes(t: RawBinary.Tensor, k: nat)
    requires k < t.heads * t.tokens
    ensures Cell(ToPlanes(t), k) == Row(t, k)
  {
    hide Row;
    QuotientBelow(k, t.tokens, t.heads);
  }

  lemma PieceBounds(k: nat, rows: nat, width: nat)
    requires k <= rows
    ensures k * width <= rows * width
    ensures k < rows ==> (k + 1) * width == k * width + width <= rows * width
  {
  }

  /** The bytes from row k on are row k and the bytes after it. */
  lemma PieceSplits(bytes: seq<bv8>, width: nat, k: nat, rows: nat)
    requires k < rows && |bytes| == rows * width
    ensures k * width <= (k + 1) * width <= |bytes|
    ensures bytes[k * width..] == Piece(bytes, width, k) + bytes[(k + 1) * width..]
  {
    PieceBounds(k, rows, width);
    var at := k * width;
    assert bytes[at..] == bytes[at..at + width] + bytes[at + width..];
  }

  lemma CellsEnd(t: RawBinary.Tensor, k: nat)
    ensures k >= t.heads * t.tokens ==> BytesFrom(ToPlanes(t), k) == []
    ensures k < t.heads * t.tokens ==> BytesFrom(ToPlanes(t), k) == Cell(ToPlanes(t), k) + BytesFrom(ToPlanes(t), k + 1)
  {
    hide Cell;
    hide Row;
  }

  lemma {:induction false} BytesOfPlanes(t: RawBinary.Tensor, k: nat, rows: nat)
    requires Filled(t) && rows == t.heads * t.tokens && k <= rows
    ensures k * Width(t) <= |t.bytes| && BytesFrom(ToPlanes(t), k) == t.bytes[k * Width(t)..]
    decreases rows - k
  {
    hide Width;
    hide Cell;
    hide ToPlanes;
    hide BytesFrom;
    hide Piece;
    PieceBounds(k, rows, Width(t));
    CellsEnd(t, k);
    if k < rows {
      PieceSplits(t.bytes, Width(t), k, rows);
      BytesOfPlanes(t, k + 1, rows);
      CellOfPlanes(t, k);
    }
  }

  lemma Regroup(heads: nat, tokens: nat, dim: nat, item: nat)
    ensures heads * tokens * (dim * item) == tokens * (heads * dim * item)
  {
    assert heads * tokens * (dim * item) == tokens * heads * (dim * item) == tokens * (heads * (dim * item));
    assert heads * (dim * item) == heads * dim * item;
  }

  /** Nothing is lost by cutting, and the cut tensor counts the same bytes. */
  lemma PlanesRoundTrip(t: RawBinary.Tensor)
    requires Filled(t)
    ensures FromPlanes(ToPlanes(t)) == t && ToPlanes(t).Nbytes() == |t.bytes|
  {
    hide BytesFrom;
    BytesOfPlanes(t, 0, t.heads * t.tokens);
    Regroup(t.heads, t.tokens, t.dim, RawBinary.ItemSize(t.float));
    hide Row;
    hide RawBinary.ItemSize;
  }

  function AllToPlanes(kv: RawBinary.KvData): KvDict {
    map l | l in kv :: (ToPlanes(kv[l].0), ToPlanes(kv[l].1))
  }

  function AllFromPlanes(kv: KvDict): RawBinary.KvData {
    map l | l in kv :: (FromPlanes(kv[l].0), FromPlanes(kv[l].1))
  }

  lemma ShapedIsFilled(t: RawBinary.Tensor, h: RawBinary.Header)
    requires WireProofs.Shaped(t, h)
    ensures Filled(t) && |ToPlanes(t).planes| == h.tokens
  {
    assert h.heads * h.tokens * h.dim * RawBinary.ItemSize(h.float)
      == h.heads * h.tokens * (h.dim * RawBinary.ItemSize(h.float));
  }

  lemma PlanesOfAll(kv: RawBinary.KvData, h: RawBinary.Header)
    requires WireProofs.Fits(kv, h)
    ensures AllToPlanes(kv).Keys == kv.Keys && Uniform(AllToPlanes(kv), h.tokens)
    ensures AllFromPlanes(AllToPlanes(kv)) == kv
  {
    hide ToPlanes;
    hide FromPlanes;
    forall l | l in kv
      ensures |ToPlanes(kv[l].0).planes| == h.tokens && |ToPlanes(kv[l].1).planes| == h.tokens
      ensures FromPlanes(ToPlanes(kv[l].0)) == kv[l].0 && FromPlanes(ToPlanes(kv[l].1)) == kv[l].1
    {
      ShapedIsFilled(kv[l].0, h);
      ShapedIsFilled(kv[l].1, h);
      PlanesRoundTrip(kv[l].0);
      PlanesRoundTrip(kv[l].1);
    }
  }

  /** A cache as the wire gives it, split into blocks and merged again in any order, is that cache byte for byte. */
  lemma BlocksKeepTheCache(kv: RawBinary.KvData, config: RawBinary.ModelConfig, size: nat, shuffled: seq<CacheBlock>,
          order: seq<nat>)
    requires WireProofs.Describes(config, kv) && kv[0].0.tokens >= 1 && size >= 1
    ensures 0 in AllToPlanes(kv)
    ensures Shuffled(Split(AllToPlanes(kv), size), shuffled, order) ==>
              ToKvDict(shuffled).Some? && AllFromPlanes(ToKvDict(shuffled).value) == kv
  {
    hide AllToPlanes;
    hide AllFromPlanes;
    hide ToKvDict;
    hide Split;
    hide Shuffled;
    PlanesOfAll(kv, RawBinary.HeaderOf(kv, config));
    if Shuffled(Split(AllToPlanes(kv), size), shuffled, order) {
      BlockRoundTrip(AllToPlanes(kv), size, shuffled, order);
    }
  }
}
