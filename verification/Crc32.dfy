/** CRC-32 as in section 8 of RFC 1952, bit by bit, and the bursts it cannot miss. */
module Crc32 {
  const POLYNOMIAL: bv32 := 0xEDB88320

  function Xor(x: bv32, y: bv32): bv32 {
    x ^ y
  }

  /** One bit leaves the register at the low end. */
  function ShiftBit(c: bv32): bv32 {
    if c & 1 == 1 then (c >> 1) ^ POLYNOMIAL else c >> 1
  }

  function ShiftPair(c: bv32): bv32 {
    ShiftBit(ShiftBit(c))
  }

  function ShiftNibble(c: bv32): bv32 {
    ShiftPair(ShiftPair(c))
  }

  function ShiftByte(c: bv32): bv32 {
    ShiftNibble(ShiftNibble(c))
  }

  /** A byte in one of the four lanes of the register. */
  function Lane(b: bv8, lane: nat): bv32
    requires lane < 4
  {
    if lane == 0 then b as bv32
    else if lane == 1 then (b as bv32) << 8
    else if lane == 2 then (b as bv32) << 16
    else (b as bv32) << 24
  }

  /** One byte enters the register. */
  function Feed(c: bv32, b: bv8): bv32 {
    ShiftByte(Xor(c, Lane(b, 0)))
  }

  function FeedAll(c: bv32, data: seq<bv8>): bv32
    decreases |data|
  {
    if data == [] then c else FeedAll(Feed(c, data[0]), data[1..])
  }

  const ONES: bv32 := 0xFFFFFFFF

  function Crc(data: seq<bv8>): bv32 {
    Xor(FeedAll(ONES, data), ONES)
  }

  // ---- The register forgets nothing ----

  lemma XorInjective(c: bv32, d: bv32, x: bv32)
    requires Xor(c, x) == Xor(d, x)
    ensures c == d
  {
  }

  /** The polynomial's top bit records the bit that left, so a step can be undone. */
  lemma ShiftBitInjective(c: bv32, d: bv32)
    requires ShiftBit(c) == ShiftBit(d)
    ensures c == d
  {
  }

  lemma ShiftNibbleInjective(c: bv32, d: bv32)
    requires ShiftNibble(c) == ShiftNibble(d)
    ensures c == d
  {
    hide ShiftBit;
    var x, y := ShiftPair(c), ShiftPair(d);
    ShiftBitInjective(ShiftBit(x), ShiftBit(y));
    ShiftBitInjective(x, y);
    ShiftBitInjective(ShiftBit(c), ShiftBit(d));
    ShiftBitInjective(c, d);
  }

  lemma ShiftByteInjective(c: bv32, d: bv32)
    requires ShiftByte(c) == ShiftByte(d)
    ensures c == d
  {
    hide ShiftNibble;
    ShiftNibbleInjective(ShiftNibble(c), ShiftNibble(d));
    ShiftNibbleInjective(c, d);
  }

  /** Registers that differ stay different whatever the same bytes do to them. */
  lemma {:induction false} FeedAllInjective(c: bv32, d: bv32, data: seq<bv8>)
    requires FeedAll(c, data) == FeedAll(d, data)
    ensures c == d
    decreases |data|
  {
    hide ShiftByte;
    hide Xor;
    if data != [] {
      FeedAllInjective(Feed(c, data[0]), Feed(d, data[0]), data[1..]);
      ShiftByteInjective(Xor(c, Lane(data[0], 0)), Xor(d, Lane(data[0], 0)));
      XorInjective(c, d, Lane(data[0], 0));
    }
  }

  lemma {:induction false} FeedAllConcat(c: bv32, a: seq<bv8>, b: seq<bv8>)
    ensures FeedAll(c, a + b) == FeedAll(FeedAll(c, a), b)
    decreases |a|
  {
    hide Feed;
    if a == [] {
      assert a + b == b;
    } else {
      FeedAllConcat(Feed(c, a[0]), a[1..], b);
      assert (a + b)[1..] == a[1..] + b;
    }
  }

  // ---- Four bytes at once ----

  function Half(c: bv32): bv32 {
    c >> 1
  }

  predicate Odd(c: bv32) {
    c & 1 == 1
  }

  lemma ShiftBitIs(c: bv32)
    ensures ShiftBit(c) == if Odd(c) then Xor(Half(c), POLYNOMIAL) else Half(c)
  {
  }

  lemma OddXor(x: bv32, y: bv32)
    requires y & 1 == 0
    ensures Odd(Xor(x, y)) == Odd(x)
  {
  }

  lemma HalfXor(x: bv32, y: bv32)
    ensures Half(Xor(x, y)) == Xor(Half(x), Half(y))
  {
  }

  lemma XorSwap(x: bv32, y: bv32)
    ensures Xor(Xor(x, y), POLYNOMIAL) == Xor(Xor(x, POLYNOMIAL), y)
  {
  }

  /** Bits above those that leave pass through the shift untouched. */
  lemma ShiftBitHalf(x: bv32, y: bv32)
    requires y & 1 == 0
    ensures ShiftBit(Xor(x, y)) == Xor(ShiftBit(x), Half(y))
  {
    hide *;
    OddXor(x, y);
    HalfXor(x, y);
    ShiftBitIs(x);
    ShiftBitIs(Xor(x, y));
    XorSwap(Half(x), Half(y));
  }

  lemma ShiftBitLinear(x: bv32, y: bv32)
    requires y & 1 == 0
    ensures ShiftBit(Xor(x, y)) == Xor(ShiftBit(x), y >> 1)
  {
    hide ShiftBit;
    hide Xor;
    ShiftBitHalf(x, y);
  }

  lemma ShiftPairLinear(x: bv32, y: bv32)
    requires y & 3 == 0
    ensures ShiftPair(Xor(x, y)) == Xor(ShiftPair(x), y >> 2)
  {
    hide ShiftBit;
    hide Xor;
    assert y & 1 == 0 && (y >> 1) & 1 == 0 && (y >> 1) >> 1 == y >> 2;
    ShiftBitLinear(x, y);
    ShiftBitLinear(ShiftBit(x), y >> 1);
  }

  lemma ShiftNibbleLinear(x: bv32, y: bv32)
    requires y & 15 == 0
    ensures ShiftNibble(Xor(x, y)) == Xor(ShiftNibble(x), y >> 4)
  {
    hide ShiftPair;
    hide Xor;
    assert y & 3 == 0 && (y >> 2) & 3 == 0 && (y >> 2) >> 2 == y >> 4;
    ShiftPairLinear(x, y);
    ShiftPairLinear(ShiftPair(x), y >> 2);
  }

  lemma ShiftByteLinear(x: bv32, y: bv32)
    requires y & 0xFF == 0
    ensures ShiftByte(Xor(x, y)) == Xor(ShiftByte(x), y >> 8)
  {
    hide ShiftNibble;
    hide Xor;
    assert y & 15 == 0 && (y >> 4) & 15 == 0 && (y >> 4) >> 4 == y >> 8;
    ShiftNibbleLinear(x, y);
    ShiftNibbleLinear(ShiftNibble(x), y >> 4);
  }

  /** A byte that enters lane k after a shift might as well have entered lane k+1 before it. */
  lemma EnterEarly(x: bv32, b: bv8, lane: nat)
    requires lane < 3
    ensures Xor(ShiftByte(x), Lane(b, lane)) == ShiftByte(Xor(x, Lane(b, lane + 1)))
  {
    var y := Lane(b, lane + 1);
    assert y & 0xFF == 0 && y >> 8 == Lane(b, lane);
    hide ShiftByte;
    ShiftByteLinear(x, y);
  }

  /** Four bytes in their lanes. */
  function LoadWord(r: bv32, w: seq<bv8>): bv32
    requires |w| == 4
  {
    Xor(Xor(Xor(Xor(r, Lane(w[0], 0)), Lane(w[1], 1)), Lane(w[2], 2)), Lane(w[3], 3))
  }

  lemma LoadInjective(r: bv32, w: seq<bv8>, v: seq<bv8>)
    requires |w| == |v| == 4 && LoadWord(r, w) == LoadWord(r, v)
    ensures w == v
  {
    Unload(r, w);
    Unload(r, v);
    hide LoadWord;
    hide ReadLane;
    assert w[0] == v[0] && w[1] == v[1] && w[2] == v[2] && w[3] == v[3];
  }

  /** Every byte can be read back from its lane. */
  lemma Unload(r: bv32, w: seq<bv8>)
    requires |w| == 4
    ensures ReadLane(r, LoadWord(r, w), 0) == w[0] && ReadLane(r, LoadWord(r, w), 1) == w[1]
    ensures ReadLane(r, LoadWord(r, w), 2) == w[2] && ReadLane(r, LoadWord(r, w), 3) == w[3]
  {
    hide ReadLane;
    hide Xor;
    hide Lane;
    UnloadLow(r, w[0], w[1], w[2], w[3]);
    UnloadHigh(r, w[0], w[1], w[2], w[3]);
  }

  lemma UnloadLow(r: bv32, a: bv8, b: bv8, c: bv8, d: bv8)
    ensures var x := Xor(Xor(Xor(Xor(r, Lane(a, 0)), Lane(b, 1)), Lane(c, 2)), Lane(d, 3));
      ReadLane(r, x, 0) == a && ReadLane(r, x, 1) == b
  {
  }

  lemma UnloadHigh(r: bv32, a: bv8, b: bv8, c: bv8, d: bv8)
    ensures var x := Xor(Xor(Xor(Xor(r, Lane(a, 0)), Lane(b, 1)), Lane(c, 2)), Lane(d, 3));
      ReadLane(r, x, 2) == c && ReadLane(r, x, 3) == d
  {
  }

  function ReadLane(r: bv32, x: bv32, lane: nat): bv8
    requires lane < 4
  {
    if lane == 0 then ((x ^ r) & 0xFF) as bv8
    else if lane == 1 then (((x ^ r) >> 8) & 0xFF) as bv8
    else if lane == 2 then (((x ^ r) >> 16) & 0xFF) as bv8
    else (((x ^ r) >> 24) & 0xFF) as bv8
  }

  function ShiftWord(c: bv32): bv32 {
    ShiftByte(ShiftByte(ShiftByte(ShiftByte(c))))
  }

  lemma ShiftWordInjective(x: bv32, y: bv32)
    requires ShiftWord(x) == ShiftWord(y)
    ensures x == y
  {
    hide ShiftByte;
    ShiftByteInjective(ShiftByte(ShiftByte(ShiftByte(x))), ShiftByte(ShiftByte(ShiftByte(y))));
    ShiftByteInjective(ShiftByte(ShiftByte(x)), ShiftByte(ShiftByte(y)));
    ShiftByteInjective(ShiftByte(x), ShiftByte(y));
    ShiftByteInjective(x, y);
  }

  /** Feeding four bytes one by one is loading them all up front and shifting four times. */
  lemma FeedFour(r: bv32, w: seq<bv8>)
    requires |w| == 4
    ensures FeedAll(r, w) == ShiftWord(LoadWord(r, w))
  {
    hide ShiftByte;
    hide Xor;
    hide Lane;
    var x0 := Xor(r, Lane(w[0], 0));
    var x1 := Xor(x0, Lane(w[1], 1));
    var x2 := Xor(x1, Lane(w[2], 2));
    EnterEarly(x0, w[1], 0);
    EnterEarly(ShiftByte(x1), w[2], 0);
    EnterEarly(x1, w[2], 1);
    EnterEarly(ShiftByte(ShiftByte(x2)), w[3], 0);
    EnterEarly(ShiftByte(x2), w[3], 1);
    EnterEarly(x2, w[3], 2);
    FeedOneByOne(r, w);
  }

  lemma FeedOneByOne(r: bv32, w: seq<bv8>)
    requires |w| == 4
    ensures FeedAll(r, w) == Feed(Feed(Feed(Feed(r, w[0]), w[1]), w[2]), w[3])
  {
    hide Feed;
    assert w[1..][1..] == w[2..] && w[2..][1..] == w[3..] && w[3..][1..] == [];
    var r2 := Feed(Feed(r, w[0]), w[1]);
    var r3 := Feed(r2, w[2]);
    assert FeedAll(r, w) == FeedAll(Feed(r, w[0]), w[1..]) == FeedAll(r2, w[2..]) == FeedAll(r3, w[3..]);
    assert FeedAll(r3, w[3..]) == FeedAll(Feed(r3, w[3]), []);
  }

  lemma FourBytesInjective(r: bv32, w: seq<bv8>, v: seq<bv8>)
    requires |w| == |v| == 4 && FeedAll(r, w) == FeedAll(r, v)
    ensures w == v
  {
    FeedFour(r, w);
    FeedFour(r, v);
    hide ShiftWord;
    hide FeedAll;
    hide LoadWord;
    ShiftWordInjective(LoadWord(r, w), LoadWord(r, v));
    LoadInjective(r, w, v);
  }

  /** Shorter windows: pad both with the same zeros. */
  lemma WindowInjective(r: bv32, w: seq<bv8>, v: seq<bv8>)
    requires |w| == |v| <= 4 && FeedAll(r, w) == FeedAll(r, v)
    ensures w == v
  {
    hide FeedAll;
    var pad := seq(4 - |w|, i => 0 as bv8);
    FeedAllConcat(r, w, pad);
    FeedAllConcat(r, v, pad);
    FourBytesInjective(r, w + pad, v + pad);
    assert w == (w + pad)[..|w|] && v == (v + pad)[..|w|];
  }

  /** Corruption confined to four consecutive bytes always changes the checksum, however long the data. */
  lemma BurstChangesCrc(before: seq<bv8>, w: seq<bv8>, v: seq<bv8>, after: seq<bv8>)
    requires |w| == |v| <= 4 && w != v
    ensures Crc(before + w + after) != Crc(before + v + after)
  {
    hide FeedAll;
    hide Xor;
    var r := FeedAll(ONES, before);
    FeedAllConcat(ONES, before + w, after);
    FeedAllConcat(ONES, before + v, after);
    FeedAllConcat(ONES, before, w);
    FeedAllConcat(ONES, before, v);
    if Crc(before + w + after) == Crc(before + v + after) {
      XorInjective(FeedAll(FeedAll(r, w), after), FeedAll(FeedAll(r, v), after), ONES);
      FeedAllInjective(FeedAll(r, w), FeedAll(r, v), after);
      WindowInjective(r, w, v);
      assert false;
    }
  }
}
