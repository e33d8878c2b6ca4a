/** The raw binary wire format: a 64-byte header, then the key and value bytes of every layer. */
module RawBinary {
  import opened Types
  import opened Crc32

  datatype Result<T> = Ok(value: T) | Err(error: Error)

  datatype Error =
    | EmptyKv | MissingLayers | NoLayerZero | FieldTooWide                    // serialize
    | TooSmall | BadMagic | ChecksumMismatch | BadVersion | TruncatedPayload  // deserialize

  datatype ModelConfig = ModelConfig(numLayers: nat, numHeads: nat, headDim: nat, blockSize: nat, dtype: string) {
    /** Memory of a session's cache, by the configuration's own reading of its dtype. */
    function SessionSizeBytes(tokens: nat): nat {
      2 * (numLayers * (numHeads * tokens * headDim * ConfiguredItemSize()))
    }

    function ConfiguredItemSize(): nat {
      if dtype in ["float16", "bfloat16"] then 2 else 4
    }
  }

  datatype Float = F16 | F32

  function ItemSize(f: Float): nat {
    if f == F16 then 2 else 4
  }

  /** The wire format's reading of a dtype name. */
  function WireFloat(dtype: string): Float {
    if dtype in ["float16", "fp16"] then F16 else F32
  }

  /** A tensor of shape (heads, tokens, dim) and its bytes in memory order. */
  datatype Tensor = Tensor(heads: nat, tokens: nat, dim: nat, float: Float, bytes: seq<bv8>)

  type KvData = map<nat, (Tensor, Tensor)>

  function TensorBytes(heads: nat, tokens: nat, dim: nat, f: Float): nat {
    heads * tokens * dim * ItemSize(f)
  }

  // ---- The header ----

  const MAGIC: seq<bv8> := [0x4B, 0x56, 0x43, 0x41, 0x43, 0x48, 0x45, 0x00]
  const HEADER_SIZE := 64

  datatype Header = Header(layers: nat, heads: nat, dim: nat, tokens: nat, float: Float) {
    predicate Packable() {
      layers < 0x10000 && heads < 0x10000 && dim < 0x10000 && tokens < 0x1_0000_0000
    }
  }

  function Bit(n: nat, mask: bv8): bv8 {
    if n % 2 == 1 then mask else 0
  }

  /** The low eight bits of a number. */
  function Byte(n: nat): bv8 {
    Bit(n, 1) | Bit(n / 2, 2) | Bit(n / 4, 4) | Bit(n / 8, 8)
    | Bit(n / 16, 16) | Bit(n / 32, 32) | Bit(n / 64, 64) | Bit(n / 128, 128)
  }

  function Weight(b: bv8, mask: bv8, weight: nat): nat {
    if b & mask != 0 then weight else 0
  }

  /** A byte as a number. */
  function Value(b: bv8): nat {
    Weight(b, 1, 1) + Weight(b, 2, 2) + Weight(b, 4, 4) + Weight(b, 8, 8)
    + Weight(b, 16, 16) + Weight(b, 32, 32) + Weight(b, 64, 64) + Weight(b, 128, 128)
  }

  function U16(n: nat): seq<bv8> {
    [Byte(n), Byte(n / 256)]
  }

  function U32(n: nat): seq<bv8> {
    [Byte(n), Byte(n / 256), Byte(n / 65536), Byte(n / 16777216)]
  }

  function ReadU16(data: seq<bv8>, at: nat): nat
    requires at + 2 <= |data|
  {
    Value(data[at]) + 256 * Value(data[at + 1])
  }

  function ReadU32(data: seq<bv8>, at: nat): nat
    requires at + 4 <= |data|
  {
    Value(data[at]) + 256 * Value(data[at + 1]) + 65536 * Value(data[at + 2]) + 16777216 * Value(data[at + 3])
  }

  function CrcBytes(c: bv32): seq<bv8> {
    [ReadLane(0, c, 0), ReadLane(0, c, 1), ReadLane(0, c, 2), ReadLane(0, c, 3)]
  }

  function Zeros(n: nat): seq<bv8> {
    seq(n, i => 0 as bv8)
  }

  /** The fields both versions share. */
  function Common(version: nat, h: Header): (r: seq<bv8>)
    ensures |r| == 21
  {
    MAGIC + U16(version) + U16(h.layers) + U16(h.heads) + U16(h.dim) + U32(h.tokens) + [if h.float == F16 then 0 else 1]
  }

  function PackV2(h: Header, crc: bv32): (r: seq<bv8>)
    ensures |r| == HEADER_SIZE
  {
    Common(2, h) + CrcBytes(crc) + Zeros(39)
  }

  function PackV1(h: Header): (r: seq<bv8>)
    ensures |r| == HEADER_SIZE
  {
    Common(1, h) + Zeros(43)
  }

  function ReadHeader(data: seq<bv8>): Header
    requires |data| >= HEADER_SIZE
  {
    var float := if data[20] == 0 then F16 else F32;
    Header(ReadU16(data, 10), ReadU16(data, 12), ReadU16(data, 14), ReadU32(data, 16), float)
  }

  function ReadCrc(data: seq<bv8>): bv32
    requires |data| >= HEADER_SIZE
  {
    LoadWord(0, data[21..25])
  }

  // ---- Serialize ----

  /** Payload bytes of the layers from `from` on. */
  function Payload(kv: KvData, from: nat, layers: nat): seq<bv8>
    requires forall l :: from <= l < layers ==> l in kv
    decreases layers - from
  {
    if from >= layers then [] else kv[from].0.bytes + kv[from].1.bytes + Payload(kv, from + 1, layers)
  }

  function HeaderOf(kv: KvData, config: ModelConfig): Header
    requires 0 in kv
  {
    Header(config.numLayers, config.numHeads, config.headDim, kv[0].0.tokens, WireFloat(config.dtype))
  }

  function Serialize(kv: KvData, config: ModelConfig): Result<Blob> {
    if kv == map[] then Err(EmptyKv)
    else if exists l | 0 <= l < config.numLayers :: l !in kv then Err(MissingLayers)
    else if 0 !in kv then Err(NoLayerZero)
    else
      var payload := Payload(kv, 0, config.numLayers);
      var header := HeaderOf(kv, config);
      if header.Packable() then Ok(PackV2(header, Crc(payload)) + payload) else Err(FieldTooWide)
  }

  /** The serializer collects the payload layer by layer. */
  method SerializeBytes(kv: KvData, config: ModelConfig) returns (r: Result<Blob>)
    ensures r == Serialize(kv, config)
  {
    if kv == map[] {
      return Err(EmptyKv);
    }
    for l := 0 to config.numLayers
      invariant forall i :: 0 <= i < l ==> i in kv
    {
      if l !in kv {
        return Err(MissingLayers);
      }
    }
    if 0 !in kv {
      return Err(NoLayerZero);
    }
    var payload := [];
    for l := 0 to config.numLayers
      invariant payload + Payload(kv, l, config.numLayers) == Payload(kv, 0, config.numLayers)
    {
      var (k, v) := kv[l];
      assert payload + (k.bytes + v.bytes + Payload(kv, l + 1, config.numLayers))
          == payload + k.bytes + v.bytes + Payload(kv, l + 1, config.numLayers);
      payload := payload + k.bytes + v.bytes;
    }
    assert payload + [] == payload;
    var header := HeaderOf(kv, config);
    if !header.Packable() {
      return Err(FieldTooWide);
    }
    r := Ok(PackV2(header, Crc(payload)) + payload);
  }

  // ---- Deserialize ----

  function ReadTensor(h: Header, bytes: seq<bv8>): Tensor {
    Tensor(h.heads, h.tokens, h.dim, h.float, bytes)
  }

  /** Layers from `from` on, read off the front of what is left of the payload. */
  function ReadLayers(h: Header, rest: seq<bv8>, from: nat): KvData
    decreases h.layers - from
  {
    var n := TensorBytes(h.heads, h.tokens, h.dim, h.float);
    if from >= h.layers || |rest| < 2 * n then map[]
    else ReadLayers(h, rest[2 * n..], from + 1)[from := (ReadTensor(h, rest[..n]), ReadTensor(h, rest[n..2 * n]))]
  }

  function Area(layers: nat, n: nat): nat {
    layers * n
  }

  function ExpectedSize(h: Header): nat {
    HEADER_SIZE + 2 * Area(h.layers, TensorBytes(h.heads, h.tokens, h.dim, h.float))
  }

  datatype Decoded = Decoded(kv: KvData, config: ModelConfig)

  /** The version-dependent header check. */
  function CheckVersion(data: Blob): Result<Header>
    requires |data| >= HEADER_SIZE
  {
    if data[..8] != MAGIC then Err(BadMagic)
    else if ReadU16(data, 8) == 2 then
      if Crc(data[HEADER_SIZE..]) != ReadCrc(data) then Err(ChecksumMismatch) else Ok(ReadHeader(data))
    else if ReadU16(data, 8) == 1 then Ok(ReadHeader(data))
    else Err(BadVersion)
  }

  /** The block size is not stored; a decoded configuration has the default one. */
  function ConfigOf(h: Header): ModelConfig {
    ModelConfig(h.layers, h.heads, h.dim, 16, if h.float == F16 then "float16" else "float32")
  }

  function Deserialize(data: Blob): Result<Decoded> {
    if |data| < HEADER_SIZE then Err(TooSmall)
    else
      match CheckVersion(data)
      case Err(e) => Err(e)
      case Ok(h) =>
        if |data| < ExpectedSize(h) then Err(TruncatedPayload)
        else Ok(Decoded(ReadLayers(h, data[HEADER_SIZE..], 0), ConfigOf(h)))
  }

  /** The deserializer walks the payload with a running offset. */
  method DeserializeBytes(data: Blob) returns (r: Result<Decoded>)
    ensures r == Deserialize(data)
  {
    if |data| < HEADER_SIZE {
      return Err(TooSmall);
    }
    var checked := CheckVersion(data);
    if checked.Err? {
      return Err(checked.error);
    }
    var h := checked.value;
    if |data| < ExpectedSize(h) {
      return Err(TruncatedPayload);
    }
    var kv := ReadAllLayers(h, data);
    r := Ok(Decoded(kv, ConfigOf(h)));
  }

  method ReadAllLayers(h: Header, data: Blob) returns (kv: KvData)
    requires |data| >= ExpectedSize(h)
    ensures kv == ReadLayers(h, data[HEADER_SIZE..], 0)
  {
    hide Area;
    hide TensorBytes;
    hide ReadLayers;
    var n := TensorBytes(h.heads, h.tokens, h.dim, h.float);
    kv := map[];
    var offset := HEADER_SIZE;
    ghost var all := ReadLayers(h, data[HEADER_SIZE..], 0);
    for layer := 0 to h.layers
      invariant HEADER_SIZE <= offset && offset + 2 * Area(h.layers - layer, n) <= |data|
      invariant forall l :: l in kv ==> l < layer
      invariant kv + ReadLayers(h, data[offset..], layer) == all
    {
      OneLayerLess(h.layers - layer, n);
      ReadStep(h, data, offset, layer);
      var k, v := data[offset..offset + n], data[offset + n..offset + 2 * n];
      kv := kv[layer := (ReadTensor(h, k), ReadTensor(h, v))];
      offset := offset + 2 * n;
    }
    ReadNothing(h, data[offset..]);
    assert kv + map[] == kv;
  }

  lemma ReadNothing(h: Header, rest: seq<bv8>)
    ensures ReadLayers(h, rest, h.layers) == map[]
  {
  }

  lemma OneLayerLess(layers: nat, n: nat)
    requires layers > 0
    ensures Area(layers, n) == n + Area(layers - 1, n)
  {
  }

  lemma ReadStep(h: Header, data: seq<bv8>, offset: nat, layer: nat)
    requires layer < h.layers && offset + 2 * TensorBytes(h.heads, h.tokens, h.dim, h.float) <= |data|
    ensures var n := TensorBytes(h.heads, h.tokens, h.dim, h.float);
      var tensors := (ReadTensor(h, data[offset..offset + n]), ReadTensor(h, data[offset + n..offset + 2 * n]));
      var later := ReadLayers(h, data[offset + 2 * n..], layer + 1);
      ReadLayers(h, data[offset..], layer) == later[layer := tensors] && layer !in later
  {
    var n := TensorBytes(h.heads, h.tokens, h.dim, h.float);
    hide TensorBytes;
    var rest := data[offset..];
    assert rest[..n] == data[offset..offset + n] && rest[n..2 * n] == data[offset + n..offset + 2 * n];
    assert rest[2 * n..] == data[offset + 2 * n..];
    LayersFrom(h, rest[2 * n..], layer + 1);
  }

  lemma {:induction false} LayersFrom(h: Header, rest: seq<bv8>, from: nat)
    ensures forall l :: l in ReadLayers(h, rest, from) ==> l >= from
    decreases h.layers - from
  {
    var n := TensorBytes(h.heads, h.tokens, h.dim, h.float);
    if from < h.layers && |rest| >= 2 * n {
      LayersFrom(h, rest[2 * n..], from + 1);
    }
  }
}
