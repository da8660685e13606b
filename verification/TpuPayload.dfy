/** The payload codec of the TPU client: the wire bytes followed by one flag byte. */
module TpuPayload {
  import opened Prelude

  const MEV_PROTECTED: bv8 := 1
  const ALL_FLAGS: bv8 := MEV_PROTECTED

  // The message of the flush task.
  const FLUSH: Bytes := []

  datatype TpuClientPayload = TpuClientPayload(encoded: Bytes)
  {
    predicate IsMevProtected() {
      encoded != [] && (Last(encoded) & ALL_FLAGS) & MEV_PROTECTED == MEV_PROTECTED
    }

    // Slicing panics on an empty encoding, which neither New nor Decode produces.
    function WireTransaction(): Bytes
      requires encoded != []
    {
      encoded[..|encoded| - 1]
    }
  }

  function Flags(mevProtect: bool): bv8
  {
    if mevProtect then MEV_PROTECTED else 0
  }

  function Encode(wire: Bytes, mevProtect: bool): Bytes
  {
    wire + [Flags(mevProtect)]
  }

  method New(wireTransaction: Bytes, mevProtect: bool) returns (payload: TpuClientPayload)
    ensures payload.encoded == Encode(wireTransaction, mevProtect)
    ensures payload.IsMevProtected() == mevProtect && payload.WireTransaction() == wireTransaction
  {
    var flags := if mevProtect then MEV_PROTECTED else 0;
    var bytes := wireTransaction;
    bytes := bytes + [flags];
    payload := TpuClientPayload(bytes);
    RoundTrip(wireTransaction, mevProtect);
  }

  function Decode(encoded: Bytes): Option<TpuClientPayload>
  {
    if encoded == [] then None else Some(TpuClientPayload(encoded))
  }

  /** Decoding an encoded payload gives back the bytes and the flag. */
  lemma RoundTrip(wire: Bytes, mevProtect: bool)
    ensures var payload := Decode(Encode(wire, mevProtect));
            && payload.Some?
            && payload.value.WireTransaction() == wire
            && payload.value.IsMevProtected() == mevProtect
  {
    FlagBits(Flags(mevProtect));
    assert Last(Encode(wire, mevProtect)) == Flags(mevProtect);
  }

  /** No payload, not even that of an empty transaction, encodes to the flush message. */
  lemma NoPayloadIsFlush(wire: Bytes, mevProtect: bool)
    ensures Encode(wire, mevProtect) != FLUSH && Decode(FLUSH) == None
  {
    assert |Encode(wire, mevProtect)| == |wire| + 1;
  }

  lemma EncodeIsInjective(wire: Bytes, mevProtect: bool, wire': Bytes, mevProtect': bool)
    requires Encode(wire, mevProtect) == Encode(wire', mevProtect')
    ensures wire == wire' && mevProtect == mevProtect'
  {
    RoundTrip(wire, mevProtect);
    RoundTrip(wire', mevProtect');
  }

  /** Re-encoding what was decoded restores the message exactly when its last byte holds no
      bit other than the protection flag; unknown flag bits are dropped. */
  lemma ReencodeRestores(encoded: Bytes)
    requires encoded != []
    ensures var payload := TpuClientPayload(encoded);
            Encode(payload.WireTransaction(), payload.IsMevProtected()) == encoded
            <==> Last(encoded) & !ALL_FLAGS == 0
  {
    var payload := TpuClientPayload(encoded);
    var again := Encode(payload.WireTransaction(), payload.IsMevProtected());
    FlagBits(Last(encoded));
    assert encoded == Init(encoded) + [Last(encoded)];
    assert Last(again) == Flags(payload.IsMevProtected());
  }

  lemma FlagBits(b: bv8)
    ensures ((b & ALL_FLAGS) & MEV_PROTECTED == MEV_PROTECTED) <==> b & 1 == 1
    ensures b & !ALL_FLAGS == 0 <==> b == 0 || b == 1
    ensures b == Flags(b & 1 == 1) <==> b & !ALL_FLAGS == 0
  {
  }
}
