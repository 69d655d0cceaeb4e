/** The Pyth `PriceUpdateV2` account as the program reads it: an 8-byte
    Anchor discriminator, a 32-byte write authority, the verification level
    (tag 0 = `Partial` followed by one byte, tag 1 = `Full`), then the price
    feed message: feed id (32 bytes), price `i64`, confidence `u64`,
    exponent `i32`, publish time `i64`, all little-endian, followed by
    fields the program does not read. */
module PriceFeed {
  import opened Ints
  import opened Errors

  type Byte = x: int | 0 <= x <= U8_MAX

  /** Bytes before the verification-level tag: discriminator and write authority. */
  const TAG_OFFSET: int := 40
  /** Shortest account the parser looks at: 8 + 32 + 1 + 32 + 8 + 8 + 4 + 8. */
  const MIN_ACCOUNT_LEN: int := 101
  const FEED_ID_LEN: int := 32
  /** Bytes of price, confidence, exponent and publish time. */
  const MESSAGE_LEN: int := 28

  datatype VerificationLevel = Partial(numSignatures: Byte) | Full

  /** The four fields `parse_anchor_price_message` returns. */
  datatype PriceMessage = PriceMessage(price: I64, expo: I32, conf: U64, publishTime: I64)

  // ---------------------------------------------------------------------
  // Little-endian integers.
  // ---------------------------------------------------------------------

  function Pow256(n: nat): (r: nat)
    ensures r >= 1
  {
    if n == 0 then 1 else 256 * Pow256(n - 1)
  }

  /** The unsigned value of little-endian bytes. */
  function LeUint(bs: seq<Byte>): (r: nat)
    ensures r < Pow256(|bs|)
  {
    if |bs| == 0 then 0 else bs[0] + 256 * LeUint(bs[1..])
  }

  /** The `n` low bytes of `x`, least significant first. */
  function EncodeLe(x: nat, n: nat): (bs: seq<Byte>)
    ensures |bs| == n
  {
    if n == 0 then [] else [x % 256] + EncodeLe(x / 256, n - 1)
  }

  lemma {:induction false} LeUintOfEncode(x: nat, n: nat)
    requires x < Pow256(n)
    ensures LeUint(EncodeLe(x, n)) == x
  {
    if n > 0 {
      var bs := EncodeLe(x, n);
      assert bs[1..] == EncodeLe(x / 256, n - 1);
      LeUintOfEncode(x / 256, n - 1);
    }
  }

  lemma {:induction false} EncodeOfLeUint(bs: seq<Byte>)
    ensures EncodeLe(LeUint(bs), |bs|) == bs
  {
    if |bs| > 0 {
      var x := LeUint(bs);
      assert x % 256 == bs[0] && x / 256 == LeUint(bs[1..]);
      EncodeOfLeUint(bs[1..]);
    }
  }

  /** Two's complement reading of an unsigned value below `modulus`. */
  function FromTwos(u: int, modulus: int): int
  {
    if 2 * u >= modulus then u - modulus else u
  }

  function ToTwos(x: int, modulus: int): int
  {
    if x < 0 then x + modulus else x
  }

  /** `i64::from_le_bytes`. */
  function LeI64(bs: seq<Byte>): I64
    requires |bs| == 8
  {
    assert Pow256(8) == U64_MAX + 1;
    FromTwos(LeUint(bs), U64_MAX + 1)
  }

  /** `u64::from_le_bytes`. */
  function LeU64(bs: seq<Byte>): U64
    requires |bs| == 8
  {
    assert Pow256(8) == U64_MAX + 1;
    LeUint(bs)
  }

  /** `i32::from_le_bytes`. */
  function LeI32(bs: seq<Byte>): I32
    requires |bs| == 4
  {
    assert Pow256(4) == 0x1_0000_0000;
    FromTwos(LeUint(bs), 0x1_0000_0000)
  }

  function I64ToLe(x: I64): (bs: seq<Byte>)
    ensures |bs| == 8 && LeI64(bs) == x
  {
    assert Pow256(8) == U64_MAX + 1;
    LeUintOfEncode(ToTwos(x, U64_MAX + 1), 8);
    EncodeLe(ToTwos(x, U64_MAX + 1), 8)
  }

  function U64ToLe(x: U64): (bs: seq<Byte>)
    ensures |bs| == 8 && LeU64(bs) == x
  {
    assert Pow256(8) == U64_MAX + 1;
    LeUintOfEncode(x, 8);
    EncodeLe(x, 8)
  }

  function I32ToLe(x: I32): (bs: seq<Byte>)
    ensures |bs| == 4 && LeI32(bs) == x
  {
    assert Pow256(4) == 0x1_0000_0000;
    LeUintOfEncode(ToTwos(x, 0x1_0000_0000), 4);
    EncodeLe(ToTwos(x, 0x1_0000_0000), 4)
  }

  // ---------------------------------------------------------------------
  // The parser.
  // ---------------------------------------------------------------------

  /** Where the price field starts: after the tag, the `Partial` payload
      byte if any, and the feed id. */
  function PriceOffset(tag: Byte): int
  {
    if tag == 0 then 74 else 73
  }

  /** `parse_anchor_price_message`: price, exponent, confidence and publish
      time of a `PriceUpdateV2` account, or `None` for a short buffer, an
      unknown verification level, or a zero price. */
  function ParseAnchorPriceMessage(data: seq<Byte>): (r: Option<PriceMessage>)
    ensures r.Some? <==>
              && |data| >= MIN_ACCOUNT_LEN
              && (data[TAG_OFFSET] == 1 || (data[TAG_OFFSET] == 0 && |data| >= MIN_ACCOUNT_LEN + 1))
              && LeI64(data[PriceOffset(data[TAG_OFFSET])..PriceOffset(data[TAG_OFFSET]) + 8]) != 0
    ensures r.Some? ==>
              var o := PriceOffset(data[TAG_OFFSET]);
              r.value == PriceMessage(LeI64(data[o..o + 8]), LeI32(data[o + 16..o + 20]),
                                      LeU64(data[o + 8..o + 16]), LeI64(data[o + 20..o + 28]))
  {
    if |data| < MIN_ACCOUNT_LEN then None
    else
      var tag := data[TAG_OFFSET];
      var off := TAG_OFFSET + 1;
      if tag != 0 && tag != 1 then None
      else if tag == 0 && |data| < off + 1 then None
      else
        var off := if tag == 0 then off + 1 else off;
        if |data| < off + FEED_ID_LEN + MESSAGE_LEN then None
        else
          var off := off + FEED_ID_LEN;
          var price := LeI64(data[off..off + 8]);
          var conf := LeU64(data[off + 8..off + 16]);
          var expo := LeI32(data[off + 16..off + 20]);
          var publishTime := LeI64(data[off + 20..off + 28]);
          if price == 0 then None else Some(PriceMessage(price, expo, conf, publishTime))
  }

  // ---------------------------------------------------------------------
  // The layout the parser reads, written out as an encoder.
  // ---------------------------------------------------------------------

  /** A `PriceUpdateV2` account: the parts before the message, the message,
      and whatever follows it (previous publish time, EMA fields, slot). */
  datatype PriceUpdate = PriceUpdate(
    discriminator: seq<Byte>,
    writeAuthority: seq<Byte>,
    level: VerificationLevel,
    feedId: seq<Byte>,
    msg: PriceMessage,
    trailer: seq<Byte>)

  predicate WellFormed(u: PriceUpdate)
  {
    |u.discriminator| == 8 && |u.writeAuthority| == 32 && |u.feedId| == FEED_ID_LEN
  }

  function EncodeLevel(level: VerificationLevel): (bs: seq<Byte>)
    ensures |bs| == (if level.Partial? then 2 else 1)
  {
    match level
    case Partial(n) => [0, n]
    case Full => [1]
  }

  function EncodeMessage(m: PriceMessage): (bs: seq<Byte>)
    ensures |bs| == MESSAGE_LEN
  {
    I64ToLe(m.price) + U64ToLe(m.conf) + I32ToLe(m.expo) + I64ToLe(m.publishTime)
  }

  function EncodePriceUpdate(u: PriceUpdate): seq<Byte>
    requires WellFormed(u)
  {
    u.discriminator + u.writeAuthority + EncodeLevel(u.level) + u.feedId + EncodeMessage(u.msg) + u.trailer
  }

  /** The four fields of an encoded message, read back at their offsets. */
  lemma DecodeMessage(m: PriceMessage)
    ensures var bs := EncodeMessage(m);
            && LeI64(bs[0..8]) == m.price && LeU64(bs[8..16]) == m.conf
            && LeI32(bs[16..20]) == m.expo && LeI64(bs[20..28]) == m.publishTime
  {
    var bs := EncodeMessage(m);
    assert bs[0..8] == I64ToLe(m.price);
    assert bs[8..16] == U64ToLe(m.conf);
    assert bs[16..20] == I32ToLe(m.expo);
    assert bs[20..28] == I64ToLe(m.publishTime);
  }

  /** The parser inverts the layout: it returns the encoded message whenever
      its price is non-zero, whatever the level and the surrounding bytes. */
  lemma ParseOfEncoded(u: PriceUpdate)
    requires WellFormed(u)
    ensures ParseAnchorPriceMessage(EncodePriceUpdate(u))
            == if u.msg.price == 0 then None else Some(u.msg)
  {
    var data := EncodePriceUpdate(u);
    var head := u.discriminator + u.writeAuthority + EncodeLevel(u.level) + u.feedId;
    var body := EncodeMessage(u.msg);
    assert data == head + body + u.trailer;
    assert data[TAG_OFFSET] == EncodeLevel(u.level)[0];
    var o := PriceOffset(data[TAG_OFFSET]);
    assert o == |head|;
    assert data[o..o + MESSAGE_LEN] == body;
    DecodeMessage(u.msg);
    assert data[o..o + 8] == body[0..8];
    assert data[o + 8..o + 16] == body[8..16];
    assert data[o + 16..o + 20] == body[16..20];
    assert data[o + 20..o + 28] == body[20..28];
  }
}
