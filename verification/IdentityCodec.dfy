// Identities, signed identities and identity messages on the wire and in files.
module IdentityCodec {
  import opened Types
  import opened Cbor
  import opened Layout
  import opened Wire

  const PUBID_LEN: nat := 40
  const PUBID_SIGNATURE_LEN: nat := 80
  const SIGNED_IDENTITY_LEN: nat := 125
  const ID_MESSAGE_LEN: nat := 127

  type PublicKey = s: seq<byte> | |s| == 32 witness seq(32, i => 0)
  type IdentityBytes = s: seq<byte> | |s| == 40 witness seq(40, i => 0)
  type RootSignature = s: seq<byte> | |s| == 80 witness seq(80, i => 0)

  datatype Identity = Identity(kid: NodeId, key: PublicKey)
  datatype SignedIdentity = SignedIdentity(payload: IdentityBytes, signature: RootSignature)

  datatype IdMessageType = IdRequest | IdResponse

  function IdMessageCode(t: IdMessageType): byte {
    if t == IdRequest then 2 else 3
  }

  // ---------------------------------------------------------------- encoding

  function Pair(a: seq<byte>, b: seq<byte>): seq<Item> {
    [Bytes(a), Bytes(b)]
  }

  function EncodeIdentity(id: Identity): seq<byte> {
    EncodeArray(Pair(id.kid, id.key))
  }

  function EncodeSigned(s: SignedIdentity): seq<byte> {
    EncodeArray(Pair(s.payload, s.signature))
  }

  function EncodeIdMessage(t: IdMessageType, s: SignedIdentity): seq<byte> {
    EncodeArray([Simple(1), Simple(IdMessageCode(t))] + Pair(s.payload, s.signature))
  }

  lemma PairSize(a: seq<byte>, b: seq<byte>)
    ensures ItemsSize(Pair(a, b)) == HeadSize(|a|) + |a| + HeadSize(|b|) + |b|
  {
    ItemsSizeUnrolled(Pair(a, b));
  }

  // The three encodings have one size each, whatever the contents.
  lemma EncodedSizes(id: Identity, s: SignedIdentity, t: IdMessageType)
    ensures |EncodeIdentity(id)| == PUBID_LEN
    ensures |EncodeSigned(s)| == SIGNED_IDENTITY_LEN
    ensures |EncodeIdMessage(t, s)| == ID_MESSAGE_LEN
  {
    PairSize(id.kid, id.key);
    PairSize(s.payload, s.signature);
    EncodeItemsSize(Pair(id.kid, id.key));
    EncodeItemsSize(Pair(s.payload, s.signature));
    var envelope := [Simple(1), Simple(IdMessageCode(t))];
    EncodeItemsSize(envelope + Pair(s.payload, s.signature));
    ItemsSizeConcat(envelope, Pair(s.payload, s.signature));
    ItemsSizeUnrolled(envelope);
  }

  // ---------------------------------------------------------------- decoding

  function PairFrom(items: seq<Item>, lengthA: nat, lengthB: nat): (p: Option<(seq<byte>, seq<byte>)>)
    ensures p.Some? ==> |p.value.0| == lengthA && |p.value.1| == lengthB
  {
    if |items| == 2 && items[0].Bytes? && |items[0].bytes| == lengthA && items[1].Bytes? && |items[1].bytes| == lengthB
    then Some((items[0].bytes, items[1].bytes))
    else None
  }

  function DecodeIdentity(buf: seq<byte>): Option<Identity> {
    match ReadArray(buf)
    case None => None
    case Some(items) =>
      match PairFrom(items, 4, 32)
      case None => None
      case Some((kid, key)) => Some(Identity(kid, key))
  }

  function DecodeSigned(buf: seq<byte>): Option<SignedIdentity> {
    match ReadArray(buf)
    case None => None
    case Some(items) =>
      match PairFrom(items, PUBID_LEN, PUBID_SIGNATURE_LEN)
      case None => None
      case Some((payload, signature)) => Some(SignedIdentity(payload, signature))
  }

  function DecodeIdMessage(buf: seq<byte>): Option<(IdMessageType, SignedIdentity)> {
    match ReadArray(buf)
    case None => None
    case Some(items) =>
      if |items| < 2 || AsU8(items[0]) != Some(1) then None
      else if AsU8(items[1]) != Some(2) && AsU8(items[1]) != Some(3) then None
      else
        match PairFrom(items[2..], PUBID_LEN, PUBID_SIGNATURE_LEN)
        case None => None
        case Some((payload, signature)) =>
          Some((if AsU8(items[1]) == Some(2) then IdRequest else IdResponse, SignedIdentity(payload, signature)))
  }

  // Each decoder undoes its encoder, whatever follows in the buffer; the identity inside a
  // signed identity therefore survives both layers.
  lemma {:induction false} IdentityRoundTrips(id: Identity, s: SignedIdentity, t: IdMessageType, after: seq<byte>)
    ensures DecodeIdentity(EncodeIdentity(id) + after) == Some(id)
    ensures DecodeSigned(EncodeSigned(s) + after) == Some(s)
    ensures DecodeIdMessage(EncodeIdMessage(t, s) + after) == Some((t, s))
    ensures s.payload == EncodeIdentity(id) ==> DecodeIdentity(s.payload) == Some(id)
  {
    hide ReadArray, EncodeArray;
    ReadArrayOfArray(Pair(id.kid, id.key), after);
    ReadArrayOfArray(Pair(id.kid, id.key), []);
    assert EncodeIdentity(id) + [] == EncodeIdentity(id);
    ReadArrayOfArray(Pair(s.payload, s.signature), after);
    var items := [Simple(1), Simple(IdMessageCode(t))] + Pair(s.payload, s.signature);
    assert items[2..] == Pair(s.payload, s.signature);
    ReadArrayOfArray(items, after);
  }

  // ---------------------------------------------------------------- the bytes

  lemma PairBytes(a: seq<byte>, b: seq<byte>)
    requires |a| < U64 && |b| < U64
    ensures EncodeItems(Pair(a, b)) == StringBytes(a) + StringBytes(b)
  {
    hide EncodeItem, EncodeItems, StringBytes;
    TwoItems(Bytes(a), Bytes(b));
    ItemBytes(0, 0, a);
    ItemBytes(0, 0, b);
  }

  lemma LongString(s: seq<byte>)
    requires 24 <= |s| < 256
    ensures StringBytes(s) == [0x58, |s|] + s
  {
  }

  // What the three encoders write, byte for byte.
  lemma {:induction false} IdentityBytesWritten(id: Identity, s: SignedIdentity, t: IdMessageType)
    ensures EncodeIdentity(id) == [0x82, 0x44] + id.kid + [0x58, 0x20] + id.key
    ensures EncodeSigned(s) == [0x82, 0x58, 0x28] + s.payload + [0x58, 0x50] + s.signature
    ensures EncodeIdMessage(t, s) ==
            [0x84, 0xE1, if t == IdRequest then 0xE2 else 0xE3, 0x58, 0x28] + s.payload + [0x58, 0x50] + s.signature
  {
    hide EncodeItem, EncodeItems, StringBytes, Head;
    var envelope := [Simple(1), Simple(IdMessageCode(t))];
    SmallArrayHead(2);
    SmallArrayHead(4);
    PairBytes(id.kid, id.key);
    PairBytes(s.payload, s.signature);
    ItemBytes(1, 0, id.kid);
    ItemBytes(IdMessageCode(t), 0, []);
    LongString(id.key);
    LongString(s.payload);
    LongString(s.signature);
    TwoItems(Simple(1), Simple(IdMessageCode(t)));
    EncodeItemsConcat(envelope, Pair(s.payload, s.signature));
  }

  // ---------------------------------------------------------------- what is taken

  ghost predicate SaysPair(buf: seq<byte>, a: seq<byte>, b: seq<byte>) {
    exists w: Array :: w.Writes(buf, [Bytes(a), Bytes(b)])
  }

  ghost predicate SaysIdMessage(buf: seq<byte>, t: IdMessageType, s: SignedIdentity) {
    exists w: Array, x: Item, y: Item ::
      && w.Writes(buf, [x, y, Bytes(s.payload), Bytes(s.signature)])
      && Small(x, 1) && Small(y, if t == IdRequest then 2 else 3)
  }

  lemma {:induction false} IdentityIff(buf: seq<byte>, id: Identity)
    ensures DecodeIdentity(buf) == Some(id) <==> SaysPair(buf, id.kid, id.key)
  {
    hide ReadArray, Array.Writes;
    ReadArrayIff(buf, [Bytes(id.kid), Bytes(id.key)]);
    if DecodeIdentity(buf) == Some(id) {
      assert ReadArray(buf).value == [Bytes(id.kid), Bytes(id.key)];
    }
  }

  lemma {:induction false} SignedIff(buf: seq<byte>, s: SignedIdentity)
    ensures DecodeSigned(buf) == Some(s) <==> SaysPair(buf, s.payload, s.signature)
  {
    hide ReadArray, Array.Writes;
    ReadArrayIff(buf, [Bytes(s.payload), Bytes(s.signature)]);
    if DecodeSigned(buf) == Some(s) {
      assert ReadArray(buf).value == [Bytes(s.payload), Bytes(s.signature)];
    }
  }

  lemma {:induction false} IdMessageIff(buf: seq<byte>, t: IdMessageType, s: SignedIdentity)
    ensures DecodeIdMessage(buf) == Some((t, s)) <==> SaysIdMessage(buf, t, s)
  {
    hide ReadArray, Array.Writes;
    if DecodeIdMessage(buf) == Some((t, s)) {
      var items := ReadArray(buf).value;
      assert items[2..][0] == items[2] && items[2..][1] == items[3];
      assert items == [items[0], items[1], Bytes(s.payload), Bytes(s.signature)];
      ReadArrayIff(buf, items);
    }
    forall w: Array, x: Item, y: Item |
      w.Writes(buf, [x, y, Bytes(s.payload), Bytes(s.signature)])
      && Small(x, 1) && Small(y, if t == IdRequest then 2 else 3)
      ensures DecodeIdMessage(buf) == Some((t, s))
    {
      var items := [x, y, Bytes(s.payload), Bytes(s.signature)];
      ReadArrayForm(buf, w, items);
      assert items[2..] == Pair(s.payload, s.signature);
    }
  }

  // ---------------------------------------------------------------- serializers

  method EncodePair(e: Encoder, a: seq<byte>, b: seq<byte>) returns (ok: bool)
    requires e.Valid()
    modifies e, e.out
    ensures e.announced == old(e.announced)
    ensures ok ==> e.Valid() && e.added == old(e.added) + Pair(a, b)
    ensures !ok ==> e.Overflows(old(e.added) + Pair(a, b))
  {
    hide EncodeItem, EncodeItems, Head;
    ghost var before := e.added;
    ok := e.Encode(Bytes(a));
    if !ok {
      e.OverflowsPrefix(before + [Bytes(a)], before + Pair(a, b));
      return false;
    }
    assert before + [Bytes(a)] + [Bytes(b)] == before + Pair(a, b);
    ok := e.Encode(Bytes(b));
  }

  // An array holding just two byte strings: an identity or a signed identity.
  method SerializePair(a: seq<byte>, b: seq<byte>, out: array<byte>, capacity: nat) returns (result: int, length: nat)
    requires capacity <= out.Length
    modifies out
    ensures result == if |EncodeArray(Pair(a, b))| <= capacity then 0 else -1
    ensures result == 0 ==> length <= capacity && out[..length] == EncodeArray(Pair(a, b))
  {
    hide EncodeItem, EncodeItems, Head;
    length := 0;
    var e := new Encoder(out, capacity);
    var ok := e.CreateArray(2);
    if !ok {
      e.OverflowsPrefix([], Pair(a, b));
      return -1, length;
    }
    ok := EncodePair(e, a, b);
    assert [] + Pair(a, b) == Pair(a, b);
    if !ok {
      return -1, length;
    }
    ok := e.CloseArray();
    return 0, e.position;
  }

  method SerializeIdMessage(t: IdMessageType, s: SignedIdentity, out: array<byte>, capacity: nat)
    returns (result: int, length: nat)
    requires capacity <= out.Length
    modifies out
    ensures result == if ID_MESSAGE_LEN <= capacity then 0 else -1
    ensures result == 0 ==> length == ID_MESSAGE_LEN && out[..length] == EncodeIdMessage(t, s)
  {
    EncodedSizes(Identity(ZERO_ID, seq(32, i => 0)), s, t);
    hide EncodeItem, EncodeItems, Head;
    ghost var items := [Simple(1), Simple(IdMessageCode(t))] + Pair(s.payload, s.signature);
    length := 0;
    var e := new Encoder(out, capacity);
    var ok := e.CreateArray(4);
    if !ok {
      e.OverflowsPrefix([], items);
      return -1, length;
    }
    ok := e.Encode(Simple(1));
    assert [] + [Simple(1)] == items[..1];
    if !ok {
      e.OverflowsPrefix(items[..1], items);
      return -1, length;
    }
    ok := e.Encode(Simple(IdMessageCode(t)));
    assert items[..1] + [Simple(IdMessageCode(t))] == items[..2];
    if !ok {
      e.OverflowsPrefix(items[..2], items);
      return -1, length;
    }
    ok := EncodePair(e, s.payload, s.signature);
    assert items[..2] + Pair(s.payload, s.signature) == items;
    if !ok {
      return -1, length;
    }
    ok := e.CloseArray();
    return 0, e.position;
  }

  // ---------------------------------------------------------------- deserializers

  // The last two elements of an array, as byte strings of given lengths.
  method DecodePair(c: Cursor, lengthA: nat, lengthB: nat) returns (p: Option<(seq<byte>, seq<byte>)>)
    modifies c
    ensures p == if old(c.Rest()).Some? then PairFrom(old(c.Rest()).value, lengthA, lengthB) else None
  {
    var a := c.Take();
    if a.None? || !a.value.Bytes? || |a.value.bytes| != lengthA {
      return None;
    }
    var b := c.Take();
    if b.None? || !b.value.Bytes? || |b.value.bytes| != lengthB {
      return None;
    }
    var end := c.AtEnd();
    if !end {
      return None;
    }
    return Some((a.value.bytes, b.value.bytes));
  }

  method DeserializeIdentity(buf: seq<byte>) returns (id: Option<Identity>)
    ensures id == DecodeIdentity(buf)
  {
    var c := new Cursor(buf);
    var ok := c.EnterArray();
    if !ok {
      return None;
    }
    var p := DecodePair(c, 4, 32);
    return if p.Some? then Some(Identity(p.value.0, p.value.1)) else None;
  }

  method DeserializeSigned(buf: seq<byte>) returns (s: Option<SignedIdentity>)
    ensures s == DecodeSigned(buf)
  {
    var c := new Cursor(buf);
    var ok := c.EnterArray();
    if !ok {
      return None;
    }
    var p := DecodePair(c, PUBID_LEN, PUBID_SIGNATURE_LEN);
    return if p.Some? then Some(SignedIdentity(p.value.0, p.value.1)) else None;
  }

  method DeserializeIdMessage(buf: seq<byte>) returns (m: Option<(IdMessageType, SignedIdentity)>)
    ensures m == DecodeIdMessage(buf)
  {
    var c := new Cursor(buf);
    var ok := c.EnterArray();
    if !ok {
      return None;
    }
    ghost var all := c.Rest();
    var version := c.Take();
    if version.None? || AsU8(version.value) != Some(1) {
      return None;
    }
    var messageType := c.Take();
    if messageType.None? || (AsU8(messageType.value) != Some(2) && AsU8(messageType.value) != Some(3)) {
      return None;
    }
    assert all.Some? ==> all.value[2..] == c.Rest().value;
    var p := DecodePair(c, PUBID_LEN, PUBID_SIGNATURE_LEN);
    if p.None? {
      return None;
    }
    return Some((if AsU8(messageType.value) == Some(2) then IdRequest else IdResponse,
                 SignedIdentity(p.value.0, p.value.1)));
  }
}
