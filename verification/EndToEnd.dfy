/** From tensors to tiers and back: serializer, compressor and manager together. */
module EndToEnd {
  import opened Types
  import opened Cascade
  import opened Operations
  import opened Coherence
  import opened Descent
  import opened RawBinary
  import opened WireProofs

  /** A compressor, as far as its callers can tell. */
  datatype Compressor = Compressor(compress: Blob -> Blob, decompress: Blob -> Blob)

  ghost predicate Inverse(z: Compressor) {
    forall data :: z.decompress(z.compress(data)) == data
  }

  function Encode(z: Compressor, kv: KvData, config: ModelConfig): Result<Blob> {
    match Serialize(kv, config)
    case Ok(data) => Ok(z.compress(data))
    case Err(e) => Err(e)
  }

  function Decode(z: Compressor, data: Blob): Result<Decoded> {
    Deserialize(z.decompress(data))
  }

  lemma EncodeRoundTrip(z: Compressor, kv: KvData, config: ModelConfig)
    requires Inverse(z) && Describes(config, kv)
    ensures Encode(z, kv, config).Ok?
    ensures Decode(z, Encode(z, kv, config).value) == Ok(Decoded(kv, ConfigOf(HeaderOf(kv, config))))
  {
    RoundTrip(kv, config);
  }

  /** If the last thing saved for a session was a cache, then whatever has happened to it since, loading the session
      yields that cache or nothing; and with an uncapped cold tier it yields that cache until the session is removed. */
  lemma LoadYieldsTheCache(c: System, ops: seq<Op>, s: Sid, z: Compressor, kv: KvData, config: ModelConfig)
    requires Run(c, ops).ok && Inverse(z) && Describes(config, kv)
    ensures var loaded := Load(c, Run(c, ops).st, s).data;
      s in LastSaved(ops) && Encode(z, kv, config) == Ok(LastSaved(ops)[s]) ==>
        && (loaded.Some? ==> Decode(z, loaded.value) == Ok(Decoded(kv, ConfigOf(HeaderOf(kv, config)))))
        && (c.coldCapacity <= 0 && NonEmpty(ops) && s in Live(c, ops) ==> loaded.Some?)
  {
    LoadReturnsLastSave(c, ops, s);
    EncodeRoundTrip(z, kv, config);
    if c.coldCapacity <= 0 && NonEmpty(ops) {
      Durability(c, ops, s);
    }
  }
}
