/**
 * The Order Intent and its fixed 129-byte Borsh layout: eight fields in a
 * fixed order, no length prefixes, `u64` fields little-endian, keys as their
 * 32 raw bytes. Also the JSON rendering of an intent.
 */
module OrderIntentCodec {
  import opened Wrappers
  import opened Bytes
  import opened Solana

  datatype OrderSide = Buy | Sell

  /** An intent as constructed: the `u64` fields hold arbitrary naturals, as a `BN` does. */
  datatype OrderIntent = OrderIntent(
    orderId: nat,
    owner: Pubkey,
    side: OrderSide,
    price: nat,
    quantity: nat,
    expiry: nat,
    baseMint: Pubkey,
    quoteMint: Pubkey)

  datatype CodecError =
    | U64OutOfRange   // a `u64` field does not fit in 8 bytes, so the encoder refuses it
    | BufferTooShort  // fewer bytes than the layout spans

  /** The span of the layout: 8 + 32 + 1 + 8 + 8 + 8 + 32 + 32. */
  const SPAN: nat := 129

  // Offset of each field in the layout.
  const ORDER_ID_AT: nat := 0
  const OWNER_AT: nat := 8
  const SIDE_AT: nat := 40
  const PRICE_AT: nat := 41
  const QUANTITY_AT: nat := 49
  const EXPIRY_AT: nat := 57
  const BASE_MINT_AT: nat := 65
  const QUOTE_MINT_AT: nat := 97

  predicate FitsU64(x: OrderIntent) {
    x.orderId < U64_LIMIT && x.price < U64_LIMIT && x.quantity < U64_LIMIT && x.expiry < U64_LIMIT
  }

  /** 2^53: integers below it are exactly representable as a JavaScript number. */
  const SAFE_INTEGER_LIMIT: nat := 0x20_0000_0000_0000

  /** Every `u64` field converts to a JavaScript number exactly. */
  predicate FitsSafeInteger(x: OrderIntent) {
    x.orderId < SAFE_INTEGER_LIMIT && x.price < SAFE_INTEGER_LIMIT
    && x.quantity < SAFE_INTEGER_LIMIT && x.expiry < SAFE_INTEGER_LIMIT
  }

  /** The side byte under the mapping that `Deserialize` reads back: Buy is 0, Sell is 1. */
  function SideByte(side: OrderSide): (b: byte)
    ensures SideOfByte(b) == side
  {
    match side
    case Buy => 0
    case Sell => 1
  }

  /** The side the decoder reads from a byte: 0 is Buy, every other value is Sell. */
  function SideOfByte(b: byte): (side: OrderSide)
    ensures side == Buy <==> b == 0
  {
    if b == 0 then Buy else Sell
  }

  /** The layout of `x` with `side` in the side slot. */
  function Layout(x: OrderIntent, side: byte): (r: seq<byte>)
    ensures |r| == SPAN
  {
    LeBytes(x.orderId, 8) + x.owner + [side] + LeBytes(x.price, 8) + LeBytes(x.quantity, 8)
      + LeBytes(x.expiry, 8) + x.baseMint + x.quoteMint
  }

  /** `OrderIntent.serialize`, with the side written as `SideByte`. */
  function Serialize(x: OrderIntent): (r: Result<seq<byte>, CodecError>)
    ensures r.Ok? ==> |r.value| == SPAN
  {
    if FitsU64(x) then Ok(Layout(x, SideByte(x.side))) else Err(U64OutOfRange)
  }

  /** `OrderIntent.deserialize`: reads the first 129 bytes and ignores any that follow. */
  function Deserialize(b: seq<byte>): (r: Result<OrderIntent, CodecError>)
    ensures r.Ok? ==> FitsU64(r.value)
  {
    if |b| < SPAN then Err(BufferTooShort)
    else
      Pow256Of8();
      Ok(OrderIntent(
        LeValue(b[ORDER_ID_AT..OWNER_AT]),
        b[OWNER_AT..SIDE_AT],
        SideOfByte(b[SIDE_AT]),
        LeValue(b[PRICE_AT..QUANTITY_AT]),
        LeValue(b[QUANTITY_AT..EXPIRY_AT]),
        LeValue(b[EXPIRY_AT..BASE_MINT_AT]),
        b[BASE_MINT_AT..QUOTE_MINT_AT],
        b[QUOTE_MINT_AT..SPAN]))
  }

  /** Each field occupies its fixed byte range of the layout. */
  lemma LayoutFields(x: OrderIntent, side: byte)
    ensures var r := Layout(x, side);
      && r[ORDER_ID_AT..OWNER_AT] == LeBytes(x.orderId, 8)
      && r[OWNER_AT..SIDE_AT] == x.owner
      && r[SIDE_AT] == side
      && r[PRICE_AT..QUANTITY_AT] == LeBytes(x.price, 8)
      && r[QUANTITY_AT..EXPIRY_AT] == LeBytes(x.quantity, 8)
      && r[EXPIRY_AT..BASE_MINT_AT] == LeBytes(x.expiry, 8)
      && r[BASE_MINT_AT..QUOTE_MINT_AT] == x.baseMint
      && r[QUOTE_MINT_AT..SPAN] == x.quoteMint
  {
    var r := Layout(x, side);
    var p1 := LeBytes(x.orderId, 8);
    var p2 := p1 + x.owner;
    var p3 := p2 + [side];
    var p4 := p3 + LeBytes(x.price, 8);
    var p5 := p4 + LeBytes(x.quantity, 8);
    var p6 := p5 + LeBytes(x.expiry, 8);
    var p7 := p6 + x.baseMint;
    assert r == p7 + x.quoteMint;
    assert r[..SPAN] == r;
    FieldOfPrefix(p7, x.quoteMint, r);
    FieldOfPrefix(p6, x.baseMint, r);
    FieldOfPrefix(p5, LeBytes(x.expiry, 8), r);
    FieldOfPrefix(p4, LeBytes(x.quantity, 8), r);
    FieldOfPrefix(p3, LeBytes(x.price, 8), r);
    FieldOfPrefix(p2, [side], r);
    FieldOfPrefix(p1, x.owner, r);
    FieldOfPrefix([], p1, r);
  }

  /** When `p + f` is a prefix of `r`, `f` sits in `r` right after `p`. */
  lemma FieldOfPrefix(p: seq<byte>, f: seq<byte>, r: seq<byte>)
    requires |p| + |f| <= |r| && r[..|p| + |f|] == p + f
    ensures r[|p|..|p| + |f|] == f && r[..|p|] == p
  {
    forall k | 0 <= k < |f| ensures r[|p|..|p| + |f|][k] == f[k] {
      assert r[|p| + k] == r[..|p| + |f|][|p| + k];
    }
    forall k | 0 <= k < |p| ensures r[..|p|][k] == p[k] {
      assert r[k] == r[..|p| + |f|][k];
    }
  }

  /** A prefix of `b` extends by the slice that follows it. */
  lemma ExtendPrefix(b: seq<byte>, i: nat, j: nat)
    requires i <= j <= |b|
    ensures b[..j] == b[..i] + b[i..j]
  {
    assert forall k :: 0 <= k < j ==> b[..j][k] == (b[..i] + b[i..j])[k];
  }

  /**
   * `serialize` succeeds exactly when every `u64` field fits, and then lays
   * the eight fields out at their fixed offsets in 129 bytes.
   */
  lemma SerializeLayout(x: OrderIntent)
    ensures Serialize(x).Ok? <==> FitsU64(x)
    ensures Serialize(x).Ok? ==>
      var r := Serialize(x).value;
      && |r| == SPAN
      && r[ORDER_ID_AT..OWNER_AT] == LeBytes(x.orderId, 8)
      && r[OWNER_AT..SIDE_AT] == x.owner
      && r[SIDE_AT] == SideByte(x.side)
      && r[PRICE_AT..QUANTITY_AT] == LeBytes(x.price, 8)
      && r[QUANTITY_AT..EXPIRY_AT] == LeBytes(x.quantity, 8)
      && r[EXPIRY_AT..BASE_MINT_AT] == LeBytes(x.expiry, 8)
      && r[BASE_MINT_AT..QUOTE_MINT_AT] == x.baseMint
      && r[QUOTE_MINT_AT..SPAN] == x.quoteMint
  {
    LayoutFields(x, SideByte(x.side));
  }

  /** The `u64` fields are little-endian: byte i of a field holding v is (v / 256^i) % 256. */
  lemma SerializeLittleEndian(x: OrderIntent, i: nat)
    requires FitsU64(x) && i < 8
    ensures var r := Serialize(x).value;
      && r[ORDER_ID_AT + i] as int == x.orderId / Pow256(i) % 256
      && r[PRICE_AT + i] as int == x.price / Pow256(i) % 256
      && r[QUANTITY_AT + i] as int == x.quantity / Pow256(i) % 256
      && r[EXPIRY_AT + i] as int == x.expiry / Pow256(i) % 256
  {
    var r := Serialize(x).value;
    LayoutFields(x, SideByte(x.side));
    assert r[ORDER_ID_AT + i] == r[ORDER_ID_AT..OWNER_AT][i];
    assert r[PRICE_AT + i] == r[PRICE_AT..QUANTITY_AT][i];
    assert r[QUANTITY_AT + i] == r[QUANTITY_AT..EXPIRY_AT][i];
    assert r[EXPIRY_AT + i] == r[EXPIRY_AT..BASE_MINT_AT][i];
    LeBytesAt(x.orderId, 8, i);
    LeBytesAt(x.price, 8, i);
    LeBytesAt(x.quantity, 8, i);
    LeBytesAt(x.expiry, 8, i);
  }

  /** Decoding the layout of an intent gives the intent back. */
  lemma {:induction false} RoundTrip(x: OrderIntent)
    requires FitsU64(x)
    ensures Serialize(x).Ok? && Deserialize(Serialize(x).value) == Ok(x)
  {
    LayoutFields(x, SideByte(x.side));
    Pow256Of8();
    LeValueOfLeBytes(x.orderId, 8);
    LeValueOfLeBytes(x.price, 8);
    LeValueOfLeBytes(x.quantity, 8);
    LeValueOfLeBytes(x.expiry, 8);
  }

  /**
   * `deserialize` fails only on a buffer shorter than the layout; it never
   * rejects a side byte (0 is Buy, 1..255 are Sell), and bytes after the
   * first 129 do not affect it.
   */
  lemma DeserializeTotal(b: seq<byte>)
    ensures Deserialize(b).Ok? <==> |b| >= SPAN
    ensures |b| >= SPAN ==> (Deserialize(b).value.side == Buy <==> b[SIDE_AT] == 0)
    ensures |b| >= SPAN ==> Deserialize(b) == Deserialize(b[..SPAN])
  {
    if |b| >= SPAN {
      var c := b[..SPAN];
      assert c[ORDER_ID_AT..OWNER_AT] == b[ORDER_ID_AT..OWNER_AT];
      assert c[OWNER_AT..SIDE_AT] == b[OWNER_AT..SIDE_AT];
      assert c[PRICE_AT..QUANTITY_AT] == b[PRICE_AT..QUANTITY_AT];
      assert c[QUANTITY_AT..EXPIRY_AT] == b[QUANTITY_AT..EXPIRY_AT];
      assert c[EXPIRY_AT..BASE_MINT_AT] == b[EXPIRY_AT..BASE_MINT_AT];
      assert c[BASE_MINT_AT..QUOTE_MINT_AT] == b[BASE_MINT_AT..QUOTE_MINT_AT];
      assert c[QUOTE_MINT_AT..SPAN] == b[QUOTE_MINT_AT..SPAN];
    }
  }

  /**
   * Re-encoding a decoded buffer reproduces its first 129 bytes exactly when
   * the side byte is 0 or 1; any other side byte comes back as 1.
   */
  lemma {:induction false} ReencodeIff(b: seq<byte>)
    requires |b| >= SPAN
    ensures Serialize(Deserialize(b).value).Ok?
    ensures Serialize(Deserialize(b).value) == Ok(b[..SPAN]) <==> b[SIDE_AT] == 0 || b[SIDE_AT] == 1
  {
    var x := Deserialize(b).value;
    LayoutOfDecoded(b);
    if !(b[SIDE_AT] == 0 || b[SIDE_AT] == 1) {
      LayoutFields(x, SideByte(x.side));
      assert Layout(x, SideByte(x.side))[SIDE_AT] != b[..SPAN][SIDE_AT];
    }
  }

  /** Laying out the decoded fields with the buffer's own side byte gives back the first 129 bytes. */
  lemma {:induction false} LayoutOfDecoded(b: seq<byte>)
    requires |b| >= SPAN
    ensures Layout(Deserialize(b).value, b[SIDE_AT]) == b[..SPAN]
  {
    var x := Deserialize(b).value;
    LeBytesOfLeValue(b[ORDER_ID_AT..OWNER_AT]);
    LeBytesOfLeValue(b[PRICE_AT..QUANTITY_AT]);
    LeBytesOfLeValue(b[QUANTITY_AT..EXPIRY_AT]);
    LeBytesOfLeValue(b[EXPIRY_AT..BASE_MINT_AT]);
    assert b[..OWNER_AT] == b[ORDER_ID_AT..OWNER_AT];
    ExtendPrefix(b, OWNER_AT, SIDE_AT);
    ExtendPrefix(b, SIDE_AT, PRICE_AT);
    assert b[SIDE_AT..PRICE_AT] == [b[SIDE_AT]];
    ExtendPrefix(b, PRICE_AT, QUANTITY_AT);
    ExtendPrefix(b, QUANTITY_AT, EXPIRY_AT);
    ExtendPrefix(b, EXPIRY_AT, BASE_MINT_AT);
    ExtendPrefix(b, BASE_MINT_AT, QUOTE_MINT_AT);
    ExtendPrefix(b, QUOTE_MINT_AT, SPAN);
  }

  // ---- Finding: the side string written into the u8 field ----

  /**
   * The side byte the source writes: the `u8` field receives the OrderSide
   * string itself ("Buy" or "Sell"). The byte buffer converts the value to a
   * number, a string converts to NaN, and NaN is stored as 0.
   */
  function WrittenSideByte(side: OrderSide): (b: byte)
    ensures SideOfByte(b) == Buy
  {
    0
  }

  /** `OrderIntent.serialize` as written. */
  function SerializeAsWritten(x: OrderIntent): (r: Result<seq<byte>, CodecError>)
    ensures r.Ok? ==> |r.value| == SPAN
  {
    if FitsU64(x) then Ok(Layout(x, WrittenSideByte(x.side))) else Err(U64OutOfRange)
  }

  /**
   * As written, a Sell intent encodes to the same bytes as the Buy intent
   * with the same other fields, and decodes back as Buy.
   */
  lemma SellEncodedAsBuy(x: OrderIntent)
    requires FitsU64(x) && x.side == Sell
    ensures SerializeAsWritten(x) == SerializeAsWritten(x.(side := Buy))
    ensures Deserialize(SerializeAsWritten(x).value) == Ok(x.(side := Buy))
    ensures Deserialize(SerializeAsWritten(x).value) != Ok(x)
  {
    RoundTrip(x.(side := Buy));
  }

  // ---- JSON rendering ----

  /**
   * The JSON object of an intent, with keys order_id, owner, side, price,
   * quantity, expiry, base_mint, quote_mint: numbers for the `u64` fields,
   * base-58 text for the keys, "Buy" or "Sell" for the side.
   */
  datatype IntentJson = IntentJson(
    orderId: nat,
    owner: string,
    side: string,
    price: nat,
    quantity: nat,
    expiry: nat,
    baseMint: string,
    quoteMint: string)

  /** The `OrderSide` enum's string values. */
  function SideName(side: OrderSide): (s: string)
    ensures s == "Buy" || s == "Sell"
    ensures s == "Buy" <==> side == Buy
  {
    match side
    case Buy => "Buy"
    case Sell => "Sell"
  }

  /** `toJSON`; `base58` is the key's `toBase58()`. */
  function ToJson(x: OrderIntent, base58: Pubkey -> string): IntentJson {
    IntentJson(x.orderId, base58(x.owner), SideName(x.side), x.price, x.quantity, x.expiry,
      base58(x.baseMint), base58(x.quoteMint))
  }

  /**
   * The JSON carries all eight fields: with a faithful base-58 text, distinct
   * intents whose numbers convert exactly render differently.
   */
  lemma ToJsonInjective(x: OrderIntent, y: OrderIntent, base58: Pubkey -> string)
    requires FitsSafeInteger(x) && FitsSafeInteger(y)
    requires forall k1, k2 :: base58(k1) == base58(k2) ==> k1 == k2
    requires ToJson(x, base58) == ToJson(y, base58)
    ensures x == y
  {
    assert SideName(x.side) == SideName(y.side);
  }
}
