/** The checksum register is long division of polynomials over the two-element field. */
module Division {
  import opened Crc32

  /** Coefficients, the highest degree first. */
  type Poly = seq<bool>

  function Zeros(n: nat): (p: Poly)
    ensures |p| == n
  {
    seq(n, _ => false)
  }

  function Ones(n: nat): (p: Poly)
    ensures |p| == n
  {
    seq(n, _ => true)
  }

  function Add(p: Poly, q: Poly): (r: Poly)
    requires |p| == |q|
    ensures |r| == |p| && forall i :: 0 <= i < |p| ==> r[i] == (p[i] != q[i])
  {
    seq(|p|, i requires 0 <= i < |p| => p[i] != q[i])
  }

  /** The generator of the CRC-32 in section 8 of RFC 1952, by its exponents. */
  const EXPONENTS: set<int> := {32, 26, 23, 22, 16, 12, 11, 10, 8, 7, 5, 4, 2, 1, 0}

  function Generator(): (g: Poly)
    ensures |g| == 33 && forall i :: 0 <= i < 33 ==> (g[i] <==> 32 - i in EXPONENTS)
  {
    seq(33, i requires 0 <= i < 33 => 32 - i in EXPONENTS)
  }

  /** Schoolbook division: while the dividend is too long, cancel its leading term. */
  function Remainder(p: Poly): (r: Poly)
    requires |p| >= 32
    ensures |r| == 32
    decreases |p|
  {
    if |p| == 32 then p
    else if p[0] then Remainder(Add(p, Generator() + Zeros(|p| - 33))[1..])
    else Remainder(p[1..])
  }

  /** The leading term of the generator. */
  function Lead(leads: bool, n: nat): (r: Poly)
    ensures |r| == n + 33 && r[0] == leads
  {
    if leads then Generator() + Zeros(n) else Zeros(n + 33)
  }

  /** A quotient times the generator. */
  function Multiply(q: Poly): (r: Poly)
    ensures |r| == |q| + 32
  {
    if q == [] then Zeros(32)
    else Add(Lead(q[0], |q| - 1), [false] + Multiply(q[1..]))
  }

  // ---- It is the remainder ----

  lemma AddZeros(p: Poly)
    ensures Add(p, Zeros(|p|)) == p && Add(Zeros(|p|), p) == p && Add(p, p) == Zeros(|p|)
  {
  }

  lemma AddSwap(p: Poly, q: Poly, r: Poly)
    requires |p| == |q| == |r|
    ensures Add(p, q) == Add(q, p) && Add(Add(p, q), r) == Add(p, Add(q, r))
  {
  }

  lemma AddConcat(p: Poly, q: Poly, s: Poly, t: Poly)
    requires |p| == |q| && |s| == |t|
    ensures Add(p + s, q + t) == Add(p, q) + Add(s, t)
  {
  }

  lemma OneStep(p: Poly)
    requires |p| > 32
    ensures var rest := Add(p, Lead(p[0], |p| - 33))[1..];
      && Remainder(p) == Remainder(rest) && p == Add(Lead(p[0], |p| - 33), [false] + rest)
  {
    var lead := Lead(p[0], |p| - 33);
    AddZeros(p);
    var sum := Add(p, lead);
    assert sum[0] == false && [false] + sum[1..] == sum;
    assert Add(lead, sum) == p;
  }

  /** Dividend is quotient times generator plus remainder. */
  lemma {:induction false} DivisionIdentity(p: Poly) returns (q: Poly)
    requires |p| >= 32
    ensures |q| == |p| - 32 && p == Add(Multiply(q), Zeros(|q|) + Remainder(p))
    decreases |p|
  {
    hide *;
    if |p| == 32 {
      q := [];
      RemainderOfShort(p);
      AddZeros(p);
      MultiplyNothing(p);
    } else {
      var rest := Add(p, Lead(p[0], |p| - 33))[1..];
      OneStep(p);
      var more := DivisionIdentity(rest);
      q := [p[0]] + more;
      Rejoin(p[0], more, Remainder(p));
    }
  }

  lemma MultiplyNothing(r: Poly)
    requires |r| == 32
    ensures Multiply([]) == Zeros(32) && Zeros(0) + r == r
  {
  }

  lemma RemainderOfShort(p: Poly)
    requires |p| == 32
    ensures Remainder(p) == p
  {
  }

  lemma AddBelow(p: Poly, q: Poly)
    requires |p| == |q|
    ensures [false] + Add(p, q) == Add([false] + p, [false] + q)
  {
  }

  lemma MultiplyUnfolds(leads: bool, more: Poly)
    ensures Multiply([leads] + more) == Add(Lead(leads, |more|), [false] + Multiply(more))
  {
    hide Lead;
    hide Add;
    assert ([leads] + more)[1..] == more;
  }

  lemma Rejoin(leads: bool, more: Poly, r: Poly)
    requires |r| == 32
    ensures Add(Lead(leads, |more|), [false] + Add(Multiply(more), Zeros(|more|) + r))
         == Add(Multiply([leads] + more), Zeros(|more| + 1) + r)
  {
    hide *;
    var lead, product, tail := Lead(leads, |more|), Multiply(more), Zeros(|more|) + r;
    MultiplyUnfolds(leads, more);
    ZerosAbove(|more|, r);
    AddBelow(product, tail);
    AddSwap(lead, [false] + product, [false] + tail);
  }

  lemma ZerosAbove(n: nat, r: Poly)
    ensures Zeros(n + 1) + r == [false] + (Zeros(n) + r)
  {
  }

  /** And no other quotient has a remainder of that length. */
  lemma {:induction false} DivisionIsUnique(q: Poly, r: Poly, k: Poly, s: Poly)
    requires |q| == |k| && |r| == |s| == 32
    requires Add(Multiply(q), Zeros(|q|) + r) == Add(Multiply(k), Zeros(|k|) + s)
    ensures q == k && r == s
    decreases |q|
  {
    if q == [] {
      AddZeros(r);
      AddZeros(s);
      assert Zeros(0) + r == r && Zeros(0) + s == s;
    } else {
      var a, b := Add(Multiply(q[1..]), Zeros(|q| - 1) + r), Add(Multiply(k[1..]), Zeros(|k| - 1) + s);
      Rejoin(q[0], q[1..], r);
      Rejoin(k[0], k[1..], s);
      assert [q[0]] + q[1..] == q && [k[0]] + k[1..] == k;
      LeadDecides(q[0], a, k[0], b);
      DivisionIsUnique(q[1..], r, k[1..], s);
    }
  }

  lemma LeadDecides(x: bool, a: Poly, y: bool, b: Poly)
    requires |a| == |b| >= 32 && Add(Lead(x, |a| - 32), [false] + a) == Add(Lead(y, |b| - 32), [false] + b)
    ensures x == y && a == b
  {
    hide Generator;
    hide Lead;
    var p, q := Add(Lead(x, |a| - 32), [false] + a), Add(Lead(y, |b| - 32), [false] + b);
    assert p[0] == x && q[0] == y;
    forall i | 0 <= i < |a|
      ensures a[i] == b[i]
    {
      assert p[i + 1] == q[i + 1] && ([false] + a)[i + 1] == a[i] && ([false] + b)[i + 1] == b[i];
    }
  }

  // ---- Division is linear, and can be done piecemeal ----

  lemma {:induction false} RemainderAdds(p: Poly, q: Poly)
    requires |p| == |q| >= 32
    ensures Remainder(Add(p, q)) == Add(Remainder(p), Remainder(q))
    decreases |p|
  {
    hide Remainder;
    hide Lead;
    if |p| == 32 {
      RemainderOfShort(p);
      RemainderOfShort(q);
      RemainderOfShort(Add(p, q));
    } else {
      var n := |p| - 33;
      OneStep(p);
      OneStep(q);
      OneStep(Add(p, q));
      var a, b := Add(p, Lead(p[0], n))[1..], Add(q, Lead(q[0], n))[1..];
      RemainderAdds(a, b);
      LeadsAdd(p[0], q[0], n);
      var c := Add(Add(p, q), Lead(Add(p, q)[0], n))[1..];
      forall i | 0 <= i < |c|
        ensures c[i] == Add(a, b)[i]
      {
        assert Lead(p[0] != q[0], n)[i + 1] == (Lead(p[0], n)[i + 1] != Lead(q[0], n)[i + 1]);
      }
      assert c == Add(a, b);
    }
  }

  lemma LeadsAdd(x: bool, y: bool, n: nat)
    ensures forall i :: 0 <= i < n + 33 ==> Lead(x != y, n)[i] == (Lead(x, n)[i] != Lead(y, n)[i])
  {
    hide Generator;
  }

  lemma {:induction false} RemainderPiecemeal(p: Poly, z: Poly)
    requires |p| >= 32
    ensures Remainder(p + z) == Remainder(Remainder(p) + z)
    decreases |p|
  {
    hide *;
    if |p| == 32 {
      RemainderOfShort(p);
    } else {
      OneStep(p);
      OneStep(p + z);
      StepPiecemeal(p, z);
      RemainderPiecemeal(Add(p, Lead(p[0], |p| - 33))[1..], z);
    }
  }

  lemma StepPiecemeal(p: Poly, z: Poly)
    requires |p| > 32
    ensures Add(p + z, Lead((p + z)[0], |p + z| - 33))[1..] == Add(p, Lead(p[0], |p| - 33))[1..] + z
  {
    hide *;
    var n := |p| - 33;
    LongerLead(p[0], n, z);
    AddConcat(p, Lead(p[0], n), z, Zeros(|z|));
    AddZeros(z);
  }

  lemma LongerLead(x: bool, n: nat, z: Poly)
    ensures Lead(x, n + |z|) == Lead(x, n) + Zeros(|z|)
  {
    hide Generator;
    if x {
      assert Zeros(n + |z|) == Zeros(n) + Zeros(|z|);
      assert Generator() + Zeros(n + |z|) == Generator() + Zeros(n) + Zeros(|z|);
    }
  }

  lemma {:induction false} LeadingZeros(k: nat, p: Poly)
    requires |p| >= 32
    ensures Remainder(Zeros(k) + p) == Remainder(p)
    decreases k
  {
    if k == 0 {
      assert Zeros(0) + p == p;
    } else {
      assert (Zeros(k) + p)[1..] == Zeros(k - 1) + p;
      LeadingZeros(k - 1, p);
    }
  }

  // ---- Registers as polynomials ----

  /** The register holds the highest degree in its lowest bit. */
  function Bits(c: bv32, n: nat): (p: Poly)
    ensures |p| == n
  {
    if n == 0 then [] else [Odd(c)] + Bits(Half(c), n - 1)
  }

  function Halve(c: bv32, n: nat): bv32 {
    if n == 0 then c else Halve(Half(c), n - 1)
  }

  lemma {:induction false} BitsSplit(c: bv32, m: nat, n: nat)
    ensures Bits(c, m + n) == Bits(c, m) + Bits(Halve(c, m), n)
    decreases m
  {
    hide Odd;
    hide Half;
    if m == 0 {
      assert Bits(c, 0) + Bits(c, n) == Bits(c, n);
    } else {
      BitsSplit(Half(c), m - 1, n);
    }
  }

  lemma {:induction false} HalveSplit(c: bv32, m: nat, n: nat)
    ensures Halve(c, m + n) == Halve(Halve(c, m), n)
    decreases m
  {
    hide Half;
    if m > 0 {
      HalveSplit(Half(c), m - 1, n);
    }
  }

  /** The register without its lowest byte, and without its lowest four bits. */
  function DropByte(c: bv32): bv32 {
    c >> 8
  }

  function DropNibble(c: bv32): bv32 {
    c >> 4
  }

  lemma HalveIs(c: bv32)
    ensures Halve(c, 8) == DropByte(c) && Halve(c, 32) == 0
  {
    hide *;
    var d := DropByte(c);
    HalveEight(c);
    HalveEight(d);
    HalveEight(DropByte(d));
    HalveEight(DropByte(DropByte(d)));
    HalveSplit(c, 8, 24);
    HalveSplit(d, 8, 16);
    HalveSplit(DropByte(d), 8, 8);
    AllDropped(c);
  }

  lemma AllDropped(c: bv32)
    ensures DropByte(DropByte(DropByte(DropByte(c)))) == 0
  {
  }

  lemma HalveEight(c: bv32)
    ensures Halve(c, 8) == DropByte(c)
  {
    hide *;
    HalveFour(c);
    HalveFour(DropNibble(c));
    HalveSplit(c, 4, 4);
    TwoNibbles(c);
  }

  lemma TwoNibbles(c: bv32)
    ensures DropNibble(DropNibble(c)) == DropByte(c)
  {
  }

  lemma HalveFour(c: bv32)
    ensures Halve(c, 4) == DropNibble(c)
  {
    hide *;
    HalveSplit(c, 2, 2);
    HalveTwo(c);
    HalveTwo(Half(Half(c)));
    FourHalves(c);
  }

  lemma HalveTwo(c: bv32)
    ensures Halve(c, 2) == Half(Half(c))
  {
    hide Half;
    HalveSplit(c, 1, 1);
  }

  lemma FourHalves(c: bv32)
    ensures Half(Half(Half(Half(c)))) == DropNibble(c)
  {
  }

  lemma BitsUnfolds(c: bv32, n: nat)
    ensures Bits(c, n + 1) == [Odd(c)] + Bits(Half(c), n)
    ensures Bits(c, 0) == []
  {
  }

  lemma AddFirst(a: bool, p: Poly, b: bool, q: Poly)
    requires |p| == |q|
    ensures Add([a] + p, [b] + q) == [a != b] + Add(p, q) && Add([], []) == []
  {
  }

  lemma {:induction false} BitsXor(x: bv32, y: bv32, n: nat)
    ensures Bits(Xor(x, y), n) == Add(Bits(x, n), Bits(y, n))
    decreases n
  {
    hide *;
    if n == 0 {
      BitsUnfolds(x, 0);
      BitsUnfolds(y, 0);
      BitsUnfolds(Xor(x, y), 0);
      AddFirst(true, [], true, []);
    } else {
      BitsUnfolds(x, n - 1);
      BitsUnfolds(y, n - 1);
      BitsUnfolds(Xor(x, y), n - 1);
      OddAdds(x, y);
      HalfXor(x, y);
      BitsXor(Half(x), Half(y), n - 1);
      AddFirst(Odd(x), Bits(Half(x), n - 1), Odd(y), Bits(Half(y), n - 1));
    }
  }

  lemma OddAdds(x: bv32, y: bv32)
    ensures Odd(Xor(x, y)) == (Odd(x) != Odd(y))
  {
  }

  lemma {:induction false} BitsOfZero(n: nat)
    ensures Bits(0, n) == Zeros(n)
    decreases n
  {
    if n > 0 {
      ZeroHalves();
      BitsOfZero(n - 1);
    }
  }

  lemma ZeroHalves()
    ensures Half(0) == 0 && !Odd(0)
  {
  }

  lemma OneMoreBit(c: bv32)
    ensures Bits(c, 33) == [Odd(c)] + Bits(Half(c), 32) && Bits(c, 33) == Bits(c, 32) + [false]
  {
    hide Odd;
    hide Half;
    HalveIs(c);
    BitsSplit(c, 32, 1);
    BitsOfZero(1);
  }

  lemma BitsOfHalf(c: bv32)
    ensures Bits(Half(c), 32) == Bits(c, 32)[1..] + [false]
  {
    hide Odd;
    hide Half;
    hide Bits;
    OneMoreBit(c);
    assert (Bits(c, 32) + [false])[1..] == Bits(c, 32)[1..] + [false];
  }

  /** The eight lowest bits, the lowest first. */
  function LowByte(c: bv32): (p: Poly)
    ensures |p| == 8
  {
    [c & 1 == 1, c & 2 == 2, c & 4 == 4, c & 8 == 8, c & 16 == 16, c & 32 == 32, c & 64 == 64, c & 128 == 128]
  }

  lemma BitsOfByte(c: bv32)
    ensures Bits(c, 8) == LowByte(c)
  {
    hide *;
    var c1, c2 := Half(c), Half(Half(c));
    var c3, c4 := Half(c2), Half(Half(c2));
    var c5, c6 := Half(c4), Half(Half(c4));
    TwoBits(c, 6);
    TwoBits(c2, 4);
    TwoBits(c4, 2);
    TwoBits(c6, 0);
    NoBits(Half(Half(c6)));
    Eight(Odd(c), Odd(c1), Odd(c2), Odd(c3), Odd(c4), Odd(c5), Odd(c6), Odd(Half(c6)));
    LowByteIs(c, c1, c2, c3, c4, c5, c6, Half(c6));
  }

  lemma Eight(a: bool, b: bool, c: bool, d: bool, e: bool, f: bool, g: bool, h: bool)
    ensures [a, b] + ([c, d] + ([e, f] + ([g, h] + []))) == [a, b, c, d, e, f, g, h]
  {
  }

  lemma TwoBits(c: bv32, n: nat)
    ensures Bits(c, n + 2) == [Odd(c), Odd(Half(c))] + Bits(Half(Half(c)), n)
  {
    hide Odd;
    hide Half;
    assert Bits(c, n + 2) == [Odd(c)] + Bits(Half(c), n + 1);
  }

  lemma NoBits(c: bv32)
    ensures Bits(c, 0) == []
  {
  }

  lemma LowByteIs(c: bv32, c1: bv32, c2: bv32, c3: bv32, c4: bv32, c5: bv32, c6: bv32, c7: bv32)
    requires c1 == Half(c) && c2 == Half(c1) && c3 == Half(c2) && c4 == Half(c3)
    requires c5 == Half(c4) && c6 == Half(c5) && c7 == Half(c6)
    ensures LowByte(c) == [Odd(c), Odd(c1), Odd(c2), Odd(c3), Odd(c4), Odd(c5), Odd(c6), Odd(c7)]
  {
    hide Odd;
    hide Half;
    hide DropNibble;
    FourHalves(c);
    LowBits(c);
    LowBits(c4);
    HighBits(c);
  }

  lemma LowBits(c: bv32)
    ensures Odd(c) == (c & 1 == 1) && Odd(Half(c)) == (c & 2 == 2)
    ensures Odd(Half(Half(c))) == (c & 4 == 4) && Odd(Half(Half(Half(c)))) == (c & 8 == 8)
  {
  }

  lemma HighBits(c: bv32)
    ensures (DropNibble(c) & 1 == 1) == (c & 16 == 16) && (DropNibble(c) & 2 == 2) == (c & 32 == 32)
    ensures (DropNibble(c) & 4 == 4) == (c & 64 == 64) && (DropNibble(c) & 8 == 8) == (c & 128 == 128)
  {
  }

  lemma BitsByHalves(c: bv32, d: bv32, e: bv32, f: bv32)
    requires d == Halve(c, 8) && e == Halve(d, 8) && f == Halve(e, 8)
    ensures Bits(c, 32) == Bits(c, 8) + Bits(d, 8) + Bits(e, 8) + Bits(f, 8)
  {
    hide *;
    BitsSplit(c, 8, 24);
    BitsSplit(d, 8, 16);
    BitsSplit(e, 8, 8);
  }

  lemma BitsByBytes(c: bv32, d: bv32, e: bv32, f: bv32)
    requires d == DropByte(c) && e == DropByte(d) && f == DropByte(e)
    ensures Bits(c, 32) == LowByte(c) + LowByte(d) + LowByte(e) + LowByte(f)
  {
    hide *;
    HalveEight(c);
    HalveEight(d);
    HalveEight(e);
    BitsByHalves(c, d, e, f);
    BitsOfByte(c);
    BitsOfByte(d);
    BitsOfByte(e);
    BitsOfByte(f);
  }

  /** The constant is the generator without its leading term. */
  lemma PolynomialIsGenerator()
    ensures Bits(POLYNOMIAL, 32) == Generator()[1..] && Generator()[0]
  {
    hide Bits;
    BitsByBytes(POLYNOMIAL, 0xEDB883, 0xEDB8, 0xED);
    PolynomialBytes();
    hide LowByte;
    var t, f := true, false;
    assert Generator()[1..9] == [f, f, f, f, f, t, f, f];
    assert Generator()[9..17] == [t, t, f, f, f, f, f, t];
    assert Generator()[17..25] == [f, f, f, t, t, t, f, t];
    assert Generator()[25..33] == [t, f, t, t, f, t, t, t];
    assert Generator()[1..] == Generator()[1..9] + Generator()[9..17] + Generator()[17..25] + Generator()[25..33];
  }

  lemma PolynomialBytes()
    ensures var t, f := true, false;
      && LowByte(POLYNOMIAL) == [f, f, f, f, f, t, f, f]
      && LowByte(0xEDB883) == [t, t, f, f, f, f, f, t]
      && LowByte(0xEDB8) == [f, f, f, t, t, t, f, t]
      && LowByte(0xED) == [t, f, t, t, f, t, t, t]
  {
  }

  lemma BitsOfOnes()
    ensures Bits(ONES, 32) == Ones(32)
  {
    hide Bits;
    BitsByBytes(ONES, 0xFFFFFF, 0xFFFF, 0xFF);
  }

  // ---- The register divides ----

  /** One shift multiplies by x and reduces. */
  lemma ShiftBitDivides(c: bv32)
    ensures Bits(ShiftBit(c), 32) == Remainder(Bits(c, 32) + [false])
  {
    hide *;
    var p := Bits(c, 32) + [false];
    ShiftBitIs(c);
    BitsOfHalf(c);
    BitsStart(c);
    PolynomialIsGenerator();
    BitsXor(Half(c), POLYNOMIAL, 32);
    OneStep(p);
    StepIs(p);
    RemainderOfShort(Add(p, Lead(p[0], 0))[1..]);
  }

  lemma BitsStart(c: bv32)
    ensures Bits(c, 32)[0] == Odd(c)
  {
  }

  lemma StepIs(p: Poly)
    requires |p| == 33
    ensures Add(p, Lead(p[0], 0))[1..] == if p[0] then Add(p[1..], Generator()[1..]) else p[1..]
  {
    AddZeros(p);
    assert Generator() + Zeros(0) == Generator();
    hide Generator;
  }

  lemma ShiftsCompose(p: Poly, m: nat, n: nat)
    requires |p| == 32
    ensures Remainder(Remainder(p + Zeros(m)) + Zeros(n)) == Remainder(p + Zeros(m + n))
  {
    RemainderPiecemeal(p + Zeros(m), Zeros(n));
    assert Zeros(m + n) == Zeros(m) + Zeros(n);
    assert p + Zeros(m) + Zeros(n) == p + Zeros(m + n);
  }

  lemma ShiftByteDivides(c: bv32)
    ensures Bits(ShiftByte(c), 32) == Remainder(Bits(c, 32) + Zeros(8))
  {
    hide ShiftNibble;
    hide Remainder;
    hide Bits;
    ShiftNibbleDivides(c);
    ShiftNibbleDivides(ShiftNibble(c));
    ShiftsCompose(Bits(c, 32), 4, 4);
  }

  lemma ShiftNibbleDivides(c: bv32)
    ensures Bits(ShiftNibble(c), 32) == Remainder(Bits(c, 32) + Zeros(4))
  {
    hide ShiftPair;
    hide Remainder;
    hide Bits;
    ShiftPairDivides(c);
    ShiftPairDivides(ShiftPair(c));
    ShiftsCompose(Bits(c, 32), 2, 2);
  }

  lemma ShiftPairDivides(c: bv32)
    ensures Bits(ShiftPair(c), 32) == Remainder(Bits(c, 32) + Zeros(2))
  {
    hide ShiftBit;
    hide Remainder;
    hide Bits;
    ShiftBitDivides(c);
    ShiftBitDivides(ShiftBit(c));
    assert Zeros(1) == [false];
    ShiftsCompose(Bits(c, 32), 1, 1);
  }

  /** The message, every byte's lowest bit first, as it is sent. */
  function Message(data: seq<bv8>): (p: Poly)
    ensures |p| == 8 * |data|
  {
    if data == [] then [] else Bits(data[0] as bv32, 8) + Message(data[1..])
  }

  lemma ByteEnters(c: bv32, b: bv8)
    ensures Bits(Xor(c, Lane(b, 0)), 32) == Add(Bits(c, 32), Bits(b as bv32, 8) + Zeros(24))
  {
    hide Xor;
    hide Bits;
    BitsXor(c, Lane(b, 0), 32);
    HalveIs(b as bv32);
    SmallByte(b);
    BitsSplit(b as bv32, 8, 24);
    BitsOfZero(24);
  }

  lemma SmallByte(b: bv8)
    ensures DropByte(b as bv32) == 0 && Lane(b, 0) == b as bv32
  {
  }

  /** Feeding a message to a register divides the two together: the register before the message, 32 zeros after it. */
  lemma {:induction false} RegisterDivides(c: bv32, data: seq<bv8>)
    ensures Bits(FeedAll(c, data), 32)
         == Remainder(Add(Bits(c, 32) + Zeros(8 * |data|), Message(data) + Zeros(32)))
    decreases |data|
  {
    hide *;
    var p := Bits(c, 32);
    FeedUnfolds(c, data);
    if data == [] {
      AddNothing(p);
      RemainderOfShort(p);
    } else {
      var rest, next, n := data[1..], Feed(c, data[0]), 8 * |data| - 8;
      var byte, tail := Bits(data[0] as bv32, 8), Message(data[1..]) + Zeros(32);
      var a := Add(p, byte + Zeros(24));
      RegisterDivides(next, rest);
      ByteDivides(c, data[0]);
      TailLength(data, tail);
      DividendSplits(p, byte, tail, n);
      RemainderAdds(a + Zeros(8 + n), Zeros(8) + tail);
      LeadingZeros(8, tail);
      ShiftsCompose(a, 8, n);
      RemainderAdds(Bits(next, 32) + Zeros(n), tail);
    }
  }

  lemma FeedUnfolds(c: bv32, data: seq<bv8>)
    ensures data == [] ==> FeedAll(c, data) == c && Message(data) == []
    ensures data != [] ==> FeedAll(c, data) == FeedAll(Feed(c, data[0]), data[1..])
    ensures data != [] ==> Message(data) + Zeros(32) == Bits(data[0] as bv32, 8) + (Message(data[1..]) + Zeros(32))
  {
    hide Feed;
    hide Bits;
  }

  lemma AddNothing(p: Poly)
    requires |p| == 32
    ensures Add(p + Zeros(0), [] + Zeros(32)) == p
  {
    AddZeros(p);
    assert p + Zeros(0) == p && [] + Zeros(32) == Zeros(32);
  }

  lemma TailLength(data: seq<bv8>, tail: Poly)
    requires data != [] && tail == Message(data[1..]) + Zeros(32)
    ensures |tail| == 8 * |data| - 8 + 32
  {
  }

  lemma ByteDivides(c: bv32, b: bv8)
    ensures Bits(Feed(c, b), 32) == Remainder(Add(Bits(c, 32), Bits(b as bv32, 8) + Zeros(24)) + Zeros(8))
  {
    hide Bits;
    hide Remainder;
    hide ShiftByte;
    ByteEnters(c, b);
    ShiftByteDivides(Xor(c, Lane(b, 0)));
  }

  lemma DividendSplits(p: Poly, byte: Poly, tail: Poly, n: nat)
    requires |p| == 32 && |byte| == 8 && |tail| == n + 32
    ensures Add(p + Zeros(n + 8), byte + tail) == Add(Add(p, byte + Zeros(24)) + Zeros(8 + n), Zeros(8) + tail)
  {
    var a, x, y := Add(p, byte + Zeros(24)), p + Zeros(n + 8), byte + tail;
    forall i | 0 <= i < n + 40
      ensures Add(x, y)[i] == Add(a + Zeros(8 + n), Zeros(8) + tail)[i]
    {
    }
  }

  /** The checksum: the complement of the remainder of the message, its first 32 bits complemented, with 32 zeros
      appended. */
  lemma CrcIsRemainder(data: seq<bv8>)
    ensures Bits(Crc(data), 32)
         == Add(Remainder(Add(Ones(32) + Zeros(8 * |data|), Message(data) + Zeros(32))), Ones(32))
  {
    hide Bits;
    hide Remainder;
    hide FeedAll;
    RegisterDivides(ONES, data);
    BitsOfOnes();
    BitsXor(FeedAll(ONES, data), ONES, 32);
  }

  /** The check value of the standard: the nine digits' ASCII codes. */
  lemma CheckValue()
    ensures Crc([0x31, 0x32, 0x33, 0x34, 0x35, 0x36, 0x37, 0x38, 0x39]) == 0xCBF43926
  {
  }
}
