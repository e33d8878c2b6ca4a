/** What the wire format promises: round trips, no accepted prefix, no unnoticed burst. */
module WireProofs {
  import opened Types
  import opened Crc32
  import opened RawBinary

  // ---- Fields ----

  lemma BitsOfByte(n: nat)
    ensures var b := Byte(n);
      && Weight(b, 1, 1) == n % 2 && Weight(b, 2, 2) == 2 * (n / 2 % 2)
      && Weight(b, 4, 4) == 4 * (n / 4 % 2) && Weight(b, 8, 8) == 8 * (n / 8 % 2)
      && Weight(b, 16, 16) == 16 * (n / 16 % 2) && Weight(b, 32, 32) == 32 * (n / 32 % 2)
      && Weight(b, 64, 64) == 64 * (n / 64 % 2) && Weight(b, 128, 128) == 128 * (n / 128 % 2)
  {
  }

  lemma ByteRoundTrip(n: nat)
    ensures Value(Byte(n)) == n % 256
  {
    BitsOfByte(n);
    hide Byte;
    hide Weight;
    assert n / 4 == n / 2 / 2 && n / 8 == n / 4 / 2 && n / 16 == n / 8 / 2 && n / 32 == n / 16 / 2;
    assert n / 64 == n / 32 / 2 && n / 128 == n / 64 / 2 && n / 256 == n / 128 / 2;
  }

  lemma U16RoundTrip(data: seq<bv8>, at: nat, n: nat)
    requires at + 2 <= |data| && n < 0x10000 && data[at..at + 2] == U16(n)
    ensures ReadU16(data, at) == n
  {
    hide Byte;
    hide Value;
    assert data[at] == data[at..at + 2][0] && data[at + 1] == data[at..at + 2][1];
    ByteRoundTrip(n);
    ByteRoundTrip(n / 256);
  }

  lemma U32RoundTrip(data: seq<bv8>, at: nat, n: nat)
    requires at + 4 <= |data| && n < 0x1_0000_0000 && data[at..at + 4] == U32(n)
    ensures ReadU32(data, at) == n
  {
    hide Byte;
    hide Value;
    var f := data[at..at + 4];
    assert data[at] == f[0] && data[at + 1] == f[1] && data[at + 2] == f[2] && data[at + 3] == f[3];
    ByteRoundTrip(n);
    ByteRoundTrip(n / 256);
    ByteRoundTrip(n / 65536);
    ByteRoundTrip(n / 16777216);
    BaseDigits(n);
  }

  lemma BaseDigits(n: nat)
    requires n < 0x1_0000_0000
    ensures n % 256 + 256 * (n / 256 % 256) + 65536 * (n / 65536 % 256) + 16777216 * (n / 16777216 % 256) == n
  {
    assert n / 65536 == n / 256 / 256 && n / 16777216 == n / 65536 / 256;
  }

  lemma CrcRoundTrip(c: bv32)
    ensures LoadWord(0, CrcBytes(c)) == c
  {
  }

  /** The shared fields sit at their offsets whatever follows them. */
  lemma CommonRoundTrip(version: nat, h: Header, rest: seq<bv8>)
    requires h.Packable() && version < 0x10000 && |rest| >= 43
    ensures var data := Common(version, h) + rest;
      data[..8] == MAGIC && ReadU16(data, 8) == version && ReadHeader(data) == h
  {
    hide Byte;
    hide Value;
    var data := Common(version, h) + rest;
    assert data[..8] == MAGIC;
    assert data[8..10] == U16(version) && data[10..12] == U16(h.layers);
    assert data[12..14] == U16(h.heads) && data[14..16] == U16(h.dim);
    assert data[16..20] == U32(h.tokens);
    hide U16;
    hide U32;
    hide ReadU16;
    hide ReadU32;
    U16RoundTrip(data, 8, version);
    U16RoundTrip(data, 10, h.layers);
    U16RoundTrip(data, 12, h.heads);
    U16RoundTrip(data, 14, h.dim);
    U32RoundTrip(data, 16, h.tokens);
    assert data[20] == if h.float == F16 then 0 else 1;
  }

  lemma HeaderRoundTrip(h: Header, crc: bv32, payload: seq<bv8>)
    requires h.Packable()
    ensures var data := PackV2(h, crc) + payload;
      && data[..8] == MAGIC && ReadU16(data, 8) == 2 && ReadHeader(data) == h
      && ReadCrc(data) == crc && data[HEADER_SIZE..] == payload
  {
    hide Common;
    hide CrcBytes;
    hide ReadHeader;
    hide ReadU16;
    hide LoadWord;
    V2Layout(h, crc, payload);
    CommonRoundTrip(2, h, CrcBytes(crc) + Zeros(39) + payload);
    CrcRoundTrip(crc);
  }

  lemma V2Layout(h: Header, crc: bv32, payload: seq<bv8>)
    ensures var data := PackV2(h, crc) + payload;
      && data == Common(2, h) + (CrcBytes(crc) + Zeros(39) + payload) && data[21..25] == CrcBytes(crc)
      && data[HEADER_SIZE..] == payload
  {
    hide Common;
  }

  // ---- Round trip ----

  /** A dense cache whose tensors all have the header's shape and are fully filled. */
  ghost predicate Fits(kv: KvData, h: Header) {
    && (forall l :: l in kv <==> 0 <= l < h.layers)
    && (forall l :: l in kv ==> Shaped(kv[l].0, h) && Shaped(kv[l].1, h))
  }

  ghost predicate Shaped(t: Tensor, h: Header) {
    t == ReadTensor(h, t.bytes) && |t.bytes| == TensorBytes(h.heads, h.tokens, h.dim, h.float)
  }

  /** A cache that a configuration describes: at least one layer, the shapes and dtype it names, fields wide enough. */
  ghost predicate Describes(config: ModelConfig, kv: KvData) {
    config.numLayers >= 1 && 0 in kv && Fits(kv, HeaderOf(kv, config)) && HeaderOf(kv, config).Packable()
  }

  lemma {:induction false} PayloadLength(kv: KvData, h: Header, from: nat)
    requires Fits(kv, h) && from <= h.layers
    ensures |Payload(kv, from, h.layers)| == 2 * Area(h.layers - from, TensorBytes(h.heads, h.tokens, h.dim, h.float))
    decreases h.layers - from
  {
    if from < h.layers {
      PayloadLength(kv, h, from + 1);
      OneLayerLess(h.layers - from, TensorBytes(h.heads, h.tokens, h.dim, h.float));
      assert Shaped(kv[from].0, h) && Shaped(kv[from].1, h);
      hide TensorBytes;
      hide Area;
    }
  }

  lemma {:induction false} PayloadRoundTrip(kv: KvData, h: Header, from: nat)
    requires Fits(kv, h) && from <= h.layers
    ensures var read := ReadLayers(h, Payload(kv, from, h.layers), from);
      && (forall l :: l in read <==> from <= l < h.layers)
      && (forall l :: l in read ==> read[l] == kv[l])
    decreases h.layers - from
  {
    hide TensorBytes;
    if from < h.layers {
      var n := TensorBytes(h.heads, h.tokens, h.dim, h.float);
      PayloadRoundTrip(kv, h, from + 1);
      assert Shaped(kv[from].0, h) && Shaped(kv[from].1, h);
      var p, later := Payload(kv, from, h.layers), Payload(kv, from + 1, h.layers);
      assert p[..n] == kv[from].0.bytes && p[n..2 * n] == kv[from].1.bytes && p[2 * n..] == later;
      assert ReadTensor(h, p[..n]) == kv[from].0 && ReadTensor(h, p[n..2 * n]) == kv[from].1;
    }
  }

  lemma DecodePacked(kv: KvData, h: Header, data: Blob)
    requires Fits(kv, h) && |data| >= HEADER_SIZE && CheckVersion(data) == Ok(h)
    requires data[HEADER_SIZE..] == Payload(kv, 0, h.layers)
    ensures Deserialize(data) == Ok(Decoded(kv, ConfigOf(h))) && |data| == ExpectedSize(h)
  {
    PayloadRoundTrip(kv, h, 0);
    PayloadLength(kv, h, 0);
    hide CheckVersion;
    hide TensorBytes;
    hide Area;
    assert ReadLayers(h, data[HEADER_SIZE..], 0) == kv;
  }

  lemma SerializedIsPacked(kv: KvData, config: ModelConfig)
    requires Describes(config, kv)
    ensures var h, payload := HeaderOf(kv, config), Payload(kv, 0, config.numLayers);
      Serialize(kv, config) == Ok(PackV2(h, Crc(payload)) + payload)
  {
  }

  lemma SerializedChecks(kv: KvData, config: ModelConfig)
    requires Describes(config, kv)
    ensures var r, h := Serialize(kv, config), HeaderOf(kv, config);
      && r.Ok? && |r.value| >= HEADER_SIZE && CheckVersion(r.value) == Ok(h)
      && r.value[HEADER_SIZE..] == Payload(kv, 0, h.layers)
  {
    var h, payload := HeaderOf(kv, config), Payload(kv, 0, config.numLayers);
    SerializedIsPacked(kv, config);
    HeaderRoundTrip(h, Crc(payload), payload);
  }

  /** What was serialized comes back: the same tensors, the same layers, heads, head dimension and wire dtype. */
  lemma RoundTrip(kv: KvData, config: ModelConfig)
    requires Describes(config, kv)
    ensures var r := Serialize(kv, config);
      r.Ok? && Deserialize(r.value) == Ok(Decoded(kv, ConfigOf(HeaderOf(kv, config))))
    ensures var back := ConfigOf(HeaderOf(kv, config));
      && back.numLayers == config.numLayers && back.numHeads == config.numHeads && back.headDim == config.headDim
      && WireFloat(back.dtype) == WireFloat(config.dtype) && back.dtype in ["float16", "float32"]
      && back.blockSize == 16
  {
    SerializedChecks(kv, config);
    DecodePacked(kv, HeaderOf(kv, config), Serialize(kv, config).value);
  }

  /** Version 1, without a checksum, is still read. */
  lemma LegacyRoundTrip(kv: KvData, h: Header)
    requires Fits(kv, h) && h.Packable()
    ensures Deserialize(PackV1(h) + Payload(kv, 0, h.layers)) == Ok(Decoded(kv, ConfigOf(h)))
  {
    LegacyHeader(h, Payload(kv, 0, h.layers));
    hide CheckVersion;
    hide PackV1;
    DecodePacked(kv, h, PackV1(h) + Payload(kv, 0, h.layers));
  }

  lemma LegacyHeader(h: Header, payload: seq<bv8>)
    requires h.Packable()
    ensures var data := PackV1(h) + payload;
      CheckVersion(data) == Ok(h) && data[HEADER_SIZE..] == payload
  {
    var data := PackV1(h) + payload;
    assert data == Common(1, h) + (Zeros(43) + payload);
    CommonRoundTrip(1, h, Zeros(43) + payload);
    hide Common;
    hide ReadHeader;
    hide ReadU16;
    assert data[HEADER_SIZE..] == payload;
  }

  // ---- Sizes ----

  /** The blob is a header longer than the configured session size exactly when both read the dtype as equally wide,
      or there is nothing to store.  They differ on "fp16" and on "bfloat16". */
  lemma BlobLength(kv: KvData, config: ModelConfig)
    requires Describes(config, kv)
    ensures var tokens := kv[0].0.tokens;
      Serialize(kv, config).Ok?
      && (|Serialize(kv, config).value| == HEADER_SIZE + config.SessionSizeBytes(tokens)
          <==> config.dtype !in ["fp16", "bfloat16"] || config.numHeads * tokens * config.headDim == 0)
  {
    hide Serialize;
    SerializedLength(kv, config);
    var h := HeaderOf(kv, config);
    SameWidth(config);
    hide ItemSize;
    hide WireFloat;
    hide ModelConfig.ConfiguredItemSize;
    WidthMatters(config.numLayers, h.heads * h.tokens * h.dim, ItemSize(h.float), config.ConfiguredItemSize());
  }

  lemma SerializedLength(kv: KvData, config: ModelConfig)
    requires Describes(config, kv)
    ensures Serialize(kv, config).Ok? && |Serialize(kv, config).value| == ExpectedSize(HeaderOf(kv, config))
  {
    hide Serialize;
    hide CheckVersion;
    SerializedChecks(kv, config);
    DecodePacked(kv, HeaderOf(kv, config), Serialize(kv, config).value);
  }

  const HALF := ModelConfig(1, 1, 1, 16, "fp16")
  const NUMBER := Tensor(1, 1, 1, F16, [0, 0])

  lemma HalfIsDescribed()
    ensures Describes(HALF, map[0 := (NUMBER, NUMBER)])
    ensures HeaderOf(map[0 := (NUMBER, NUMBER)], HALF) == Header(1, 1, 1, 1, F16)
    ensures ExpectedSize(Header(1, 1, 1, 1, F16)) == 68 && HALF.SessionSizeBytes(1) == 8
  {
    assert WireFloat("fp16") == F16 && HALF.ConfiguredItemSize() == 4;
    assert Shaped(NUMBER, Header(1, 1, 1, 1, F16));
  }

  /** One number per tensor under "fp16": two bytes each on the wire, four by the configuration's count. */
  lemma HalfPrecisionDisagrees()
    ensures var kv := map[0 := (NUMBER, NUMBER)];
      && Describes(HALF, kv) && Serialize(kv, HALF).Ok?
      && |Serialize(kv, HALF).value| == 68 && HEADER_SIZE + HALF.SessionSizeBytes(1) == 72
  {
    hide Serialize;
    hide ExpectedSize;
    HalfIsDescribed();
    SerializedLength(map[0 := (NUMBER, NUMBER)], HALF);
  }

  /** The wire format and the configuration read a dtype alike but for two names. */
  lemma SameWidth(config: ModelConfig)
    ensures ItemSize(WireFloat(config.dtype)) == config.ConfiguredItemSize() <==> config.dtype !in ["fp16", "bfloat16"]
  {
  }

  lemma WidthMatters(layers: nat, elements: nat, a: nat, b: nat)
    requires layers >= 1
    ensures layers * (elements * a) == layers * (elements * b) <==> elements == 0 || a == b
  {
  }

  /** Never empty: the index can tell a stored blob from a missing one. */
  lemma SerializedIsNotEmpty(kv: KvData, config: ModelConfig)
    ensures Serialize(kv, config).Ok? ==> |Serialize(kv, config).value| >= HEADER_SIZE
  {
  }

  // ---- One blob, byte for byte ----

  function Sample(bytes: Blob): Tensor {
    Tensor(0x0102, 0x05060708, 0x0304, F32, bytes)
  }

  /** Two layers of two bytes per tensor, keys before values. */
  const SAMPLE := map[0 := (Sample([1, 2]), Sample([3, 4])), 1 := (Sample([5, 6]), Sample([7, 8]))]
  const SAMPLE_CRC: bv32 := 0x3FCA88C5

  lemma SamplePayload()
    ensures Payload(SAMPLE, 0, 2) == [1, 2, 3, 4, 5, 6, 7, 8]
  {
    assert Payload(SAMPLE, 2, 2) == [];
    assert Payload(SAMPLE, 1, 2) == [5, 6] + [7, 8] + [];
  }

  lemma SampleCrc()
    ensures Crc([1, 2, 3, 4, 5, 6, 7, 8]) == SAMPLE_CRC
  {
  }

  lemma SampleShorts()
    ensures U16(2) == [0x02, 0x00] && U16(0x0102) == [0x02, 0x01] && U16(0x0304) == [0x04, 0x03]
  {
    assert Byte(0) == 0 && Byte(1) == 1 && Byte(2) == 2 && Byte(3) == 3;
    assert Byte(0x0102) == 2;
    assert Byte(0x0304) == 4;
    hide Byte;
  }

  lemma SampleLowBytes()
    ensures Byte(0x05060708) == 8 && Byte(0x050607) == 7
  {
    assert Byte(0x05060708) == 8;
    assert Byte(0x050607) == 7;
  }

  lemma SampleHighBytes()
    ensures Byte(0x0506) == 6 && Byte(5) == 5
  {
    assert Byte(0x0506) == 6;
    assert Byte(5) == 5;
  }

  lemma SampleLong()
    ensures U32(0x05060708) == [0x08, 0x07, 0x06, 0x05]
  {
    hide Byte;
    SampleLowBytes();
    SampleHighBytes();
  }

  lemma SampleCrcBytes()
    ensures CrcBytes(SAMPLE_CRC) == [0xC5, 0x88, 0xCA, 0x3F]
  {
  }

  const SAMPLE_CONFIG := ModelConfig(2, 0x0102, 0x0304, 16, "float32")
  const SAMPLE_HEADER := Header(2, 0x0102, 0x0304, 0x05060708, F32)

  lemma SampleHeader()
    ensures HeaderOf(SAMPLE, SAMPLE_CONFIG) == SAMPLE_HEADER && SAMPLE_HEADER.Packable()
  {
  }

  lemma SampleSerializes()
    ensures Serialize(SAMPLE, SAMPLE_CONFIG)
         == Ok(PackV2(SAMPLE_HEADER, SAMPLE_CRC) + [1, 2, 3, 4, 5, 6, 7, 8])
  {
    hide Payload;
    hide Crc;
    hide PackV2;
    SamplePayload();
    SampleCrc();
    SampleHeader();
  }

  lemma SamplePacks()
    ensures PackV2(SAMPLE_HEADER, SAMPLE_CRC)
         == [0x4B, 0x56, 0x43, 0x41, 0x43, 0x48, 0x45, 0x00, 0x02, 0x00, 0x02, 0x00, 0x02, 0x01, 0x04, 0x03,
             0x08, 0x07, 0x06, 0x05, 0x01, 0xC5, 0x88, 0xCA, 0x3F] + Zeros(39)
  {
    hide U16;
    hide U32;
    hide CrcBytes;
    SampleShorts();
    SampleLong();
    SampleCrcBytes();
  }

  /** The whole blob: "KVCACHE" and a zero, version, layers, heads, dimension, tokens, dtype, checksum, padding and
      payload; least significant bytes first. */
  lemma SampleBlob()
    ensures Serialize(SAMPLE, SAMPLE_CONFIG)
         == Ok([0x4B, 0x56, 0x43, 0x41, 0x43, 0x48, 0x45, 0x00, 0x02, 0x00, 0x02, 0x00, 0x02, 0x01, 0x04, 0x03,
                0x08, 0x07, 0x06, 0x05, 0x01, 0xC5, 0x88, 0xCA, 0x3F]
               + Zeros(39) + [1, 2, 3, 4, 5, 6, 7, 8])
  {
    hide *;
    SampleSerializes();
    SamplePacks();
  }

  // ---- What is written and what is read ----

  /** A cache is written exactly when it is not empty, has every configured layer and layer 0, and fits the fields. */
  lemma SerializesIff(kv: KvData, config: ModelConfig)
    ensures Serialize(kv, config).Ok? <==>
      && kv != map[] && (forall l :: 0 <= l < config.numLayers ==> l in kv) && 0 in kv
      && config.numLayers <= 65535 && config.numHeads <= 65535 && config.headDim <= 65535
      && kv[0].0.tokens <= 4294967295
    ensures kv == map[] ==> Serialize(kv, config) == Err(EmptyKv)
    ensures kv != map[] && (exists l :: 0 <= l < config.numLayers && l !in kv) ==>
      Serialize(kv, config) == Err(MissingLayers)
  {
    hide Payload;
    hide Crc;
    hide PackV2;
  }

  /** "KVCACHE" and a zero. */
  const SIGNATURE: Blob := [0x4B, 0x56, 0x43, 0x41, 0x43, 0x48, 0x45, 0x00]

  function Version(data: Blob): nat
    requires |data| >= 10
  {
    Value(data[8]) + 256 * Value(data[9])
  }

  /** A blob is read exactly when it is signed, of a known version, right by its checksum if that version has one, and
      as long as its header says; what is wrong first is what is reported. */
  lemma AcceptedIff(data: Blob)
    ensures Deserialize(data).Ok? <==>
      && |data| >= 64 && data[..8] == SIGNATURE
      && (Version(data) == 1 || (Version(data) == 2 && ReadCrc(data) == Crc(data[64..])))
      && |data| >= ExpectedSize(ReadHeader(data))
    ensures |data| < 64 ==> Deserialize(data) == Err(TooSmall)
    ensures |data| >= 64 && data[..8] != SIGNATURE ==> Deserialize(data) == Err(BadMagic)
    ensures |data| >= 64 && data[..8] == SIGNATURE && Version(data) !in [1, 2] ==> Deserialize(data) == Err(BadVersion)
  {
    hide ReadHeader;
    hide ReadCrc;
    hide Crc;
    hide ExpectedSize;
    hide Value;
  }

  /** A header says: two tensors a layer, of heads by tokens by dimension numbers, two or four bytes each. */
  lemma ExpectedSizeIs(h: Header)
    ensures ExpectedSize(h) == 64 + 2 * (h.layers * (h.heads * h.tokens * h.dim * if h.float == F16 then 2 else 4))
  {
  }

  // ---- Damage ----

  /** No strict prefix of a serialized cache is accepted. */
  lemma PrefixRejected(kv: KvData, config: ModelConfig, m: nat)
    requires Describes(config, kv)
    ensures var r := Serialize(kv, config);
      r.Ok? && (m < |r.value| ==> Deserialize(r.value[..m]).Err?)
  {
    hide Serialize;
    SerializedChecks(kv, config);
    DecodePacked(kv, HeaderOf(kv, config), Serialize(kv, config).value);
    if m < |Serialize(kv, config).value| {
      FullSizePrefixRejected(Serialize(kv, config).value, m);
    }
  }

  /** Whatever the magic, the version and the checksum: no strict prefix of a blob of full size is read. */
  lemma FullSizePrefixRejected(data: Blob, m: nat)
    requires HEADER_SIZE <= |data| == ExpectedSize(ReadHeader(data)) && m < |data|
    ensures Deserialize(data[..m]).Err?
  {
    hide ReadU16;
    hide ReadCrc;
    hide ReadHeader;
    hide ExpectedSize;
    hide Crc;
    if m >= HEADER_SIZE {
      assert data[..m][..HEADER_SIZE] == data[..HEADER_SIZE];
      SameHead(data, data[..m]);
    }
  }

  lemma SameHead(a: Blob, b: Blob)
    requires |a| >= HEADER_SIZE && |b| >= HEADER_SIZE && a[..HEADER_SIZE] == b[..HEADER_SIZE]
    ensures a[..8] == b[..8] && ReadU16(a, 8) == ReadU16(b, 8) && ReadCrc(a) == ReadCrc(b)
    ensures ReadHeader(a) == ReadHeader(b)
  {
    var head := a[..HEADER_SIZE];
    assert a[..8] == head[..8] == b[..8] && a[21..25] == head[21..25] == b[21..25];
    assert forall i :: 0 <= i < HEADER_SIZE ==> a[i] == head[i] && b[i] == head[i];
  }

  /** A readable version-2 blob whose checksum is right. */
  ghost predicate Intact(data: Blob) {
    |data| >= HEADER_SIZE && data[..8] == MAGIC && ReadU16(data, 8) == 2 && ReadCrc(data) == Crc(data[HEADER_SIZE..])
  }

  /** The same length, and different only within four consecutive payload bytes starting at `at`. */
  ghost predicate Burst(data: Blob, damaged: Blob, at: nat) {
    && |damaged| == |data| && damaged != data
    && HEADER_SIZE <= at <= |data| && damaged[..at] == data[..at]
    && (at + 4 <= |data| ==> damaged[at + 4..] == data[at + 4..])
  }

  /** Every such burst is noticed, in any version-2 blob of any length. */
  lemma BurstDetected(data: Blob, damaged: Blob, at: nat)
    requires Intact(data) && Burst(data, damaged, at)
    ensures Deserialize(damaged) == Err(ChecksumMismatch)
  {
    var before, w, v, after := BurstSplits(data, damaged, at);
    SameHead(data, damaged);
    BurstChangesCrc(before, w, v, after);
    hide ReadU16;
    hide ReadCrc;
    hide Crc;
  }

  lemma BurstSplits(data: Blob, damaged: Blob, at: nat) returns (before: Blob, w: Blob, v: Blob, after: Blob)
    requires Burst(data, damaged, at)
    ensures damaged[..HEADER_SIZE] == data[..HEADER_SIZE]
    ensures data[HEADER_SIZE..] == before + w + after && damaged[HEADER_SIZE..] == before + v + after
    ensures |w| == |v| <= 4 && w != v
  {
    var end := if at + 4 <= |data| then at + 4 else |data|;
    before, after := data[..at][HEADER_SIZE..], data[end..];
    w, v := data[at..end], damaged[at..end];
    assert data[..at][..HEADER_SIZE] == data[..HEADER_SIZE] && damaged[..at][..HEADER_SIZE] == damaged[..HEADER_SIZE];
    assert data == data[..at] + w + after && damaged == damaged[..at] + v + after;
  }

  /** Every serialized cache is intact, so damage within four consecutive payload bytes never reads back as a cache. */
  lemma CorruptionDetected(kv: KvData, config: ModelConfig, damaged: Blob, at: nat)
    requires Describes(config, kv)
    ensures var r := Serialize(kv, config);
      r.Ok? && Intact(r.value) && (Burst(r.value, damaged, at) ==> Deserialize(damaged) == Err(ChecksumMismatch))
  {
    var payload := Payload(kv, 0, config.numLayers);
    SerializedIsPacked(kv, config);
    HeaderRoundTrip(HeaderOf(kv, config), Crc(payload), payload);
    hide Serialize;
    hide Crc;
    if Burst(Serialize(kv, config).value, damaged, at) {
      BurstDetected(Serialize(kv, config).value, damaged, at);
    }
  }
}
