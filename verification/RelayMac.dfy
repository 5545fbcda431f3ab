/** What a packet signature covers (compute_mac of relay/relay.c). */
module RelayMac {
  import opened Relay
  import Sha = Sha256

  const KEY_LEN: nat := 32

  /** The bytes signed: version, type, low id bytes, nonce, for version 3 the high id bytes,
      then the payload. */
  function Preamble(p: Pkt): Bytes {
    [p.version % 256, p.kind % 256, p.src % 256, p.dst % 256] + Nonce8(p.nonce)
    + if p.version == 3 then [p.src / 256 % 256, p.dst / 256 % 256] else []
  }

  function MacInput(p: Pkt): Bytes { Preamble(p) + p.payload }

  /** compute_mac: the message goes through the hash in two pieces. */
  method ComputeMac(f: Sha.Compress, key: Bytes, p: Pkt) returns (out: Bytes)
    requires |key| == KEY_LEN
    ensures var h := Sha.Hmac(f, key, MacInput(p)); out == h[..if 16 < |h| then 16 else |h|]
  {
    hide Sha.Hash;
    var pre := Preamble(p);
    var k := key + Sha.Zeros(32);
    var parts := if |p.payload| > 0 then [pre, p.payload] else [pre];
    var h := Sha.HmacParts(f, k, parts);
    if |p.payload| > 0 {
      Sha.ConcatTwo(pre, p.payload);
    } else {
      Sha.ConcatOne(pre);
      assert MacInput(p) == pre;
    }
    out := h[..if 16 < |h| then 16 else |h|];
  }

  // ---------------------------------------------------------------- nothing is left uncovered

  /** The range of fields a received packet has (Relay.ParseRanges). */
  predicate FieldsOk(p: Pkt) {
    && (p.version == 2 || p.version == 3) && p.kind < 256 && p.nonce < 0x1_0000_0000_0000_0000
    && p.src < (if p.version == 3 then 0x1_0000 else 256) && p.dst < (if p.version == 3 then 0x1_0000 else 256)
  }

  lemma {:induction false} PreambleFields(p: Pkt)
    requires FieldsOk(p)
    ensures var m := MacInput(p);
            && |m| >= 12 && m[0] == p.version && m[1] == p.kind && m[2] == p.src % 256 && m[3] == p.dst % 256 && m[4..12] == Nonce8(p.nonce)
            && (p.version == 3 ==> |m| >= 14 && m[12] == p.src / 256 && m[13] == p.dst / 256 && m[14..] == p.payload)
            && (p.version == 2 ==> m[12..] == p.payload)
  {
    hide Nonce8;
  }

  /** The signed bytes determine version, type, source, destination, nonce and payload. */
  lemma {:induction false} MacInputInjective(p: Pkt, q: Pkt)
    requires FieldsOk(p) && FieldsOk(q) && MacInput(p) == MacInput(q)
    ensures p.version == q.version && p.kind == q.kind && p.src == q.src && p.dst == q.dst && p.nonce == q.nonce && p.payload == q.payload
  {
    hide Nonce8, MacInput, FromNonce8;
    PreambleFields(p);
    PreambleFields(q);
    NonceBack(p.nonce);
    NonceBack(q.nonce);
    assert p.src == 256 * (p.src / 256) + p.src % 256 && q.src == 256 * (q.src / 256) + q.src % 256;
    assert p.dst == 256 * (p.dst / 256) + p.dst % 256 && q.dst == 256 * (q.dst / 256) + q.dst % 256;
  }

  /** What is signed are bytes of the packet itself: the header from version to destination, the
      nonce, for version 3 the two high id bytes, and everything behind the signature. */
  lemma {:induction false} SignedBytes(b: Bytes)
    requires IsBytes(b) && Parse(b).Some? && Parse(b).value.version != 1
    ensures |b| >= 36 && MacInput(Parse(b).value) == b[4..8] + b[12..20] + (if b[4] == 3 then b[8..10] else []) + b[36..]
    ensures FieldsOk(Parse(b).value)
  {
    hide Nonce8, Parse;
    var p := Parse(b).value;
    ParseIff(b, p);
    ParseRanges(b);
    assert b[4..8] == [b[4], b[5], b[6], b[7]];
    assert p.version == 3 ==> b[8..10] == [b[8], b[9]];
  }
}
