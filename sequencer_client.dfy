/**
 * The signing payload and request body built by `placeOrderIntent`:
 * message = ASCII "FRM_DEX_ORDER" ++ serialize(intent); digest = SHA-256 of
 * the message; payload = the ASCII bytes of the digest's lowercase hex text;
 * signature = Ed25519 over the payload, keyed by the first 32 bytes of the
 * secret key; body = the intent's JSON plus the signature's hex text.
 */
module SequencerClient {
  import opened Wrappers
  import opened Bytes
  import opened Solana
  import opened OrderIntentCodec
  import Hex

  /** The bytes of the prefix literal `placeOrderIntent` uses, "FRM_DEX_ORDER". */
  const ORDER_MESSAGE_PREFIX: seq<byte> := AsciiBytes("FRM_DEX_ORDER")

  /** The bytes of the exported `FERMI_DEX_ORDER_PREFIX`, "FRM_DEX_ORDER:", which `placeOrderIntent` does not use. */
  const FERMI_DEX_ORDER_PREFIX: seq<byte> := AsciiBytes("FRM_DEX_ORDER:")

  type Signature = s: seq<byte> | |s| == 64 witness seq(64, _ => 0)

  /** A keypair's 64-byte secret key: the 32-byte seed followed by the public key. */
  type SecretKey = s: seq<byte> | |s| == 64 witness seq(64, _ => 0)

  datatype Keypair = Keypair(publicKey: Pubkey, secretKey: SecretKey)

  /**
   * Library code the client calls: SHA-256 (FIPS 180-4), Ed25519 signing
   * (section 5.1.6 of RFC 8032) from a 32-byte seed, and base-58 text of a
   * key. Only their output lengths are modelled.
   */
  datatype Primitives = Primitives(
    sha256: seq<byte> -> Bytes32,
    ed25519Sign: (seq<byte>, Bytes32) -> Signature,
    base58: Pubkey -> string)

  /** The call parameters of `placeOrderIntent`. */
  datatype PlaceOrderParams = PlaceOrderParams(
    orderId: nat,
    ownerKp: Keypair,
    side: OrderSide,
    price: nat,
    quantity: nat,
    expiry: nat,
    baseMint: Pubkey,
    quoteMint: Pubkey)

  /** The request body: `{intent, signature}` with the signature as hex text. */
  datatype PlaceOrderBody = PlaceOrderBody(intent: IntentJson, signature: string)

  /**
   * The error `placeOrderIntent` throws while building the intent: the
   * parameters are JavaScript numbers, and `new BN(n)` refuses n of 2^53 or
   * more. No later check (the encoder's 2^64 bound, `toNumber()`'s 2^53
   * bound) can fail once that one has passed.
   */
  datatype RequestError = UnsafeNumber

  /** The intent built positionally from the call parameters. */
  function IntentOf(p: PlaceOrderParams): OrderIntent {
    OrderIntent(p.orderId, p.ownerKp.publicKey, p.side, p.price, p.quantity, p.expiry,
      p.baseMint, p.quoteMint)
  }

  /** `Buffer.concat([Buffer.from(prefix), encoded])`. */
  function Message(prefix: seq<byte>, encoded: seq<byte>): (m: seq<byte>)
    ensures |m| == |prefix| + |encoded|
    ensures m[..|prefix|] == prefix && m[|prefix|..] == encoded
  {
    prefix + encoded
  }

  /** `Buffer.from(sha256(message).toString("hex"))`: the bytes of the digest's hex text. */
  function SigningPayload(sha256: seq<byte> -> Bytes32, message: seq<byte>): (r: seq<byte>)
    ensures |r| == 64
  {
    Hex.EncodeIsAscii(sha256(message));
    AsciiBytes(Hex.Encode(sha256(message)))
  }

  /** `secretKey.slice(0, 32)`: the Ed25519 seed. */
  function SigningKey(sk: SecretKey): Bytes32 {
    sk[..32]
  }

  /** The bytes `placeOrderIntent` signs for an intent, or the encoder's error. */
  function SignedPayload(x: OrderIntent, sha256: seq<byte> -> Bytes32): Result<seq<byte>, CodecError> {
    match Serialize(x)
    case Err(e) => Err(e)
    case Ok(encoded) => Ok(SigningPayload(sha256, Message(ORDER_MESSAGE_PREFIX, encoded)))
  }

  /**
   * The request body `placeOrderIntent` posts, or the error `new BN` throws
   * while the intent is built.
   */
  function PlaceOrderRequest(p: PlaceOrderParams, prim: Primitives): Result<PlaceOrderBody, RequestError> {
    var intent := IntentOf(p);
    if !FitsSafeInteger(intent) then Err(UnsafeNumber)
    else
      var payload := SignedPayload(intent, prim.sha256).value;
      var signature := prim.ed25519Sign(payload, SigningKey(p.ownerKp.secretKey));
      Ok(PlaceOrderBody(ToJson(intent, prim.base58), Hex.Encode(signature)))
  }

  /**
   * The pre-hash message is 13 + 129 = 142 bytes: the ASCII prefix, then
   * exactly the encoded intent, which decodes back to the intent.
   */
  lemma MessageLayout(x: OrderIntent)
    requires FitsU64(x)
    ensures Serialize(x).Ok?
    ensures var m := Message(ORDER_MESSAGE_PREFIX, Serialize(x).value);
      && |m| == 142
      && m[..13] == ORDER_MESSAGE_PREFIX
      && m[13..] == Serialize(x).value
      && Deserialize(m[13..]) == Ok(x)
  {
    RoundTrip(x);
  }

  /** Distinct intents give distinct pre-hash messages. */
  lemma MessageInjective(x: OrderIntent, y: OrderIntent)
    requires FitsU64(x) && FitsU64(y)
    requires Message(ORDER_MESSAGE_PREFIX, Serialize(x).value) == Message(ORDER_MESSAGE_PREFIX, Serialize(y).value)
    ensures x == y
  {
    MessageLayout(x);
    MessageLayout(y);
  }

  /**
   * Messages built with the literal prefix and with the exported constant
   * never coincide for encodings of equal length; for encoded intents they
   * are 142 and 143 bytes long.
   */
  lemma PrefixDivergence(a: seq<byte>, b: seq<byte>)
    requires |a| == |b|
    ensures |a| == SPAN ==> |Message(ORDER_MESSAGE_PREFIX, a)| == 142
    ensures |b| == SPAN ==> |Message(FERMI_DEX_ORDER_PREFIX, b)| == 143
    ensures Message(ORDER_MESSAGE_PREFIX, a) != Message(FERMI_DEX_ORDER_PREFIX, b)
  {
  }

  /**
   * A reader that expects the exported prefix cannot recover the intent from
   * this client's message: the message starts with "FRM_DEX_ORDER:" exactly
   * when the low byte of order_id is 58 (':'), and then only 128 bytes
   * follow, one short of the layout, which a strict decoder such as
   * `Deserialize` rejects.
   */
  lemma ExportedPrefixReader(x: OrderIntent)
    requires FitsU64(x)
    ensures Serialize(x).Ok?
    ensures var m := Message(ORDER_MESSAGE_PREFIX, Serialize(x).value);
      && (m[..14] == FERMI_DEX_ORDER_PREFIX <==> x.orderId % 256 == 58)
      && Deserialize(m[14..]) == Err(BufferTooShort)
  {
    var e := Serialize(x).value;
    var m := Message(ORDER_MESSAGE_PREFIX, e);
    var p, q := ORDER_MESSAGE_PREFIX, FERMI_DEX_ORDER_PREFIX;
    SerializeLittleEndian(x, 0);
    assert m[13] == e[0];
    assert e[0] as int == x.orderId % 256;
    assert q[13] as int == 58;
    assert m[..13] == p;
    assert q[..13] == p;
    if m[..14] == q {
      assert m[13] == q[13];
    }
    if x.orderId % 256 == 58 {
      assert m[..14] == m[..13] + [m[13]];
      assert q == q[..13] + [q[13]];
    }
  }

  /**
   * The signed bytes are the lowercase hex text of the 32-byte digest:
   * 64 ASCII bytes from 0-9a-f, two per digest byte, high nibble first.
   */
  lemma PayloadIsHexOfDigest(sha256: seq<byte> -> Bytes32, message: seq<byte>)
    ensures var d, r := sha256(message), SigningPayload(sha256, message);
      && |r| == 64
      && (forall i :: 0 <= i < 64 ==> Hex.IsLowerHexDigit(r[i] as int as char))
      && (forall i :: 0 <= i < 32 ==>
            r[2 * i] as int == Hex.Digit(d[i] as int / 16) as int
            && r[2 * i + 1] as int == Hex.Digit(d[i] as int % 16) as int)
  {
    var d, r := sha256(message), SigningPayload(sha256, message);
    var t := Hex.Encode(d);
    forall i | 0 <= i < 64 ensures Hex.IsLowerHexDigit(r[i] as int as char) {
      assert r[i] as int == t[i] as int;
    }
    forall i | 0 <= i < 32
      ensures r[2 * i] as int == Hex.Digit(d[i] as int / 16) as int
      ensures r[2 * i + 1] as int == Hex.Digit(d[i] as int % 16) as int
    {
      Hex.EncodeAt(d, i);
    }
  }

  /**
   * The request fails, with UnsafeNumber, exactly when a number parameter is
   * 2^53 or more; an intent that passes that check always encodes. A
   * successful request carries the hex text of the 64-byte signature over the
   * signed payload (128 characters), keyed by the first 32 bytes of the secret
   * key, and the JSON of the very intent the signed bytes encode.
   */
  lemma RequestBody(p: PlaceOrderParams, prim: Primitives)
    ensures PlaceOrderRequest(p, prim) == Err(UnsafeNumber) <==> !FitsSafeInteger(IntentOf(p))
    ensures FitsSafeInteger(IntentOf(p)) ==> Serialize(IntentOf(p)).Ok?
    ensures PlaceOrderRequest(p, prim).Ok? ==>
      var body := PlaceOrderRequest(p, prim).value;
      var payload := SignedPayload(IntentOf(p), prim.sha256).value;
      && |body.signature| == 128
      && Hex.Decode(body.signature) == Some(prim.ed25519Sign(payload, p.ownerKp.secretKey[..32]))
      && body.intent == ToJson(IntentOf(p), prim.base58)
      && body.intent.orderId == p.orderId && body.intent.price == p.price
      && body.intent.quantity == p.quantity && body.intent.expiry == p.expiry
      && body.intent.side == SideName(p.side)
      && body.intent.owner == prim.base58(p.ownerKp.publicKey)
      && body.intent.baseMint == prim.base58(p.baseMint)
      && body.intent.quoteMint == prim.base58(p.quoteMint)
  {
    if FitsSafeInteger(IntentOf(p)) {
      var payload := SignedPayload(IntentOf(p), prim.sha256).value;
      Hex.DecodeEncode(prim.ed25519Sign(payload, SigningKey(p.ownerKp.secretKey)));
    }
  }

  /**
   * The intent in the body is the intent the signature covers: decoding the
   * encoded part of the signed message and rendering it as JSON gives the
   * body's intent.
   */
  lemma BodyMatchesSignedIntent(p: PlaceOrderParams, prim: Primitives)
    requires PlaceOrderRequest(p, prim).Ok?
    ensures Serialize(IntentOf(p)).Ok?
    ensures var m := Message(ORDER_MESSAGE_PREFIX, Serialize(IntentOf(p)).value);
      && SignedPayload(IntentOf(p), prim.sha256) == Ok(SigningPayload(prim.sha256, m))
      && Deserialize(m[13..]).Ok?
      && ToJson(Deserialize(m[13..]).value, prim.base58) == PlaceOrderRequest(p, prim).value.intent
  {
    MessageLayout(IntentOf(p));
  }

  /**
   * As written, the encoder stores the side string as byte 0 (see
   * `SerializeAsWritten`): a Sell request posts a body whose side is "Sell"
   * while the message it signs decodes to a Buy intent, whose JSON differs
   * from the body's.
   */
  lemma SellRequestSignsBuy(p: PlaceOrderParams, prim: Primitives)
    requires FitsSafeInteger(IntentOf(p)) && p.side == Sell
    ensures PlaceOrderRequest(p, prim).Ok? && PlaceOrderRequest(p, prim).value.intent.side == "Sell"
    ensures SerializeAsWritten(IntentOf(p)).Ok?
    ensures var m := Message(ORDER_MESSAGE_PREFIX, SerializeAsWritten(IntentOf(p)).value);
      && Deserialize(m[13..]).Ok?
      && SideName(Deserialize(m[13..]).value.side) == "Buy"
      && ToJson(Deserialize(m[13..]).value, prim.base58) != PlaceOrderRequest(p, prim).value.intent
  {
    var x := IntentOf(p);
    SellEncodedAsBuy(x);
    var m := Message(ORDER_MESSAGE_PREFIX, SerializeAsWritten(x).value);
    assert m[13..] == SerializeAsWritten(x).value;
    assert ToJson(Deserialize(m[13..]).value, prim.base58).side == "Buy";
  }

  /** Only the first 32 bytes of the secret key reach the signature; the rest are never used. */
  lemma OnlySeedSigns(p: PlaceOrderParams, sk: SecretKey, prim: Primitives)
    requires sk[..32] == p.ownerKp.secretKey[..32]
    ensures PlaceOrderRequest(p.(ownerKp := p.ownerKp.(secretKey := sk)), prim) == PlaceOrderRequest(p, prim)
  {
  }
}
