// The messages as they stand on the wire, byte for byte and item for item: what the firmware
// writes, and what it takes from others, who may write the same in other forms.
module Layout {
  import opened Types
  import opened Cbor
  import opened Wire

  // ---------------------------------------------------------------- bytes written

  function NumberBytes(n: nat): seq<byte>
    requires n < U64
  {
    HeadBytes(0x00, n, Shortest(n))
  }

  function StringBytes(s: seq<byte>): seq<byte>
    requires |s| < U64
  {
    HeadBytes(0x40, |s|, Shortest(|s|)) + s
  }

  function StateBytes(s: GateState): seq<byte>
    requires s == Open || s == Closed
  {
    [if s == Open then 0xE0 else 0xE1]
  }

  // Version 1, message type 1, the record type, the writer, its sequence number and timestamp.
  function HeaderBytes(code: byte, b: Body): seq<byte>
    requires code < 20
  {
    [0xE1, 0xE1, 0xE0 + code, 0x44] + b.writer + NumberBytes(b.sequence)
    + NumberBytes(b.timestamp.physical) + NumberBytes(b.timestamp.logical)
  }

  // What is written for a kind of data: the code of the type, the count of elements of a message
  // without a signature, and the last of these elements.
  datatype Written = Written(code: byte, count: nat, bytes: seq<byte>)

  // Encounters, and states other than open and closed, cannot be written.
  function DataBytes(d: RecordData): (w: Option<Written>)
    ensures w.Some? ==> w.value.code < 20 && w.value.count <= 10
  {
    match d
    case ReportData(s) => if s == Open || s == Closed then Some(Written(0, 8, StateBytes(s))) else None
    case ObservationData(gate, s) =>
      if s == Open || s == Closed then Some(Written(1, 9, [0x44] + gate + StateBytes(s))) else None
    case CommandData(gate, s) =>
      if s == Open || s == Closed then Some(Written(3, 9, [0x44] + gate + StateBytes(s))) else None
    case JobData(gate, s, device) =>
      if s == Open || s == Closed then Some(Written(4, 10, [0x44] + gate + ([0x44] + device) + StateBytes(s))) else None
    case _ => None
  }

  function RecordBytes(r: Record, withSignature: bool): Option<seq<byte>> {
    match DataBytes(r.body.data)
    case None => None
    case Some(w) =>
      if !withSignature then Some([0x80 + w.count] + (HeaderBytes(w.code, r.body) + w.bytes))
      else if r.signature.None? || |r.signature.value| >= U64 then None
      else Some([0x81 + w.count] + (HeaderBytes(w.code, r.body) + w.bytes + StringBytes(r.signature.value)))
  }

  // Written, and in no more than so many bytes.
  predicate FitsIn(bytes: Option<seq<byte>>, capacity: nat) {
    bytes.Some? && |bytes.value| <= capacity
  }

  // ---------------------------------------------------------------- items taken

  // A small number: a simple value or an unsigned integer.
  predicate Small(i: Item, v: byte) {
    i == Simple(v) || i == UInt(v)
  }

  predicate IsState(i: Item, s: GateState) {
    (s == Open && Small(i, 0)) || (s == Closed && Small(i, 1))
  }

  predicate IsHeader(items: seq<Item>, code: byte, b: Body) {
    && |items| >= 7
    && Small(items[0], 1) && Small(items[1], 1) && Small(items[2], code)
    && items[3] == Bytes(b.writer) && items[4] == UInt(b.sequence)
    && items[5] == UInt(b.timestamp.physical) && items[6] == UInt(b.timestamp.logical)
  }

  predicate IsBody(items: seq<Item>, b: Body) {
    match b.data
    case ReportData(s) => |items| == 8 && IsHeader(items, 0, b) && IsState(items[7], s)
    case ObservationData(gate, s) =>
      |items| == 9 && IsHeader(items, 1, b) && items[7] == Bytes(gate) && IsState(items[8], s)
    case CommandData(gate, s) =>
      |items| == 9 && IsHeader(items, 3, b) && items[7] == Bytes(gate) && IsState(items[8], s)
    case JobData(gate, s, device) =>
      && |items| == 10 && IsHeader(items, 4, b) && items[7] == Bytes(gate) && items[8] == Bytes(device)
      && IsState(items[9], s)
    case _ => false
  }

  // These items say a record: its body and, if there is one, its signature in one piece or cut.
  predicate IsRecord(items: seq<Item>, b: Body, signature: Option<seq<byte>>) {
    match signature
    case None => IsBody(items, b)
    case Some(s) =>
      && items != [] && IsBody(items[..|items| - 1], b)
      && (items[|items| - 1] == Bytes(s) || items[|items| - 1] == Chunks(s))
  }

  // ---------------------------------------------------------------- what the encoder writes for items

  lemma EncodeItemsAppend(items: seq<Item>, i: Item)
    ensures EncodeItems(items + [i]) == EncodeItems(items) + EncodeItem(i)
  {
    hide EncodeItem;
    EncodeItemsConcat(items, [i]);
    assert EncodeItems([i]) == EncodeItem(i) + EncodeItems([i][1..]) == EncodeItem(i) + [];
  }

  lemma ItemBytes(v: byte, n: nat, s: seq<byte>)
    requires v < 20 && n < U64 && |s| < U64
    ensures EncodeItem(Simple(v)) == [0xE0 + v]
    ensures EncodeItem(UInt(n)) == NumberBytes(n)
    ensures EncodeItem(Bytes(s)) == StringBytes(s)
    ensures |s| < 24 ==> StringBytes(s) == [0x40 + |s|] + s
  {
    hide Digits2, Digits4, Digits8, Head;
    EncodeItemIsShortest(Simple(v));
    EncodeItemIsShortest(UInt(n));
    EncodeItemIsShortest(Bytes(s));
  }

  lemma IdBytes(id: NodeId)
    ensures EncodeItem(Bytes(id)) == [0x44] + id
  {
    ItemBytes(0, 0, id);
  }

  lemma NoItems()
    ensures EncodeItems([]) == []
  {
  }

  lemma OneItem(a: Item)
    ensures EncodeItems([a]) == EncodeItem(a)
  {
    hide EncodeItem;
    NoItems();
    EncodeItemsAppend([], a);
    assert [] + [a] == [a];
  }

  lemma TwoItems(a: Item, b: Item)
    ensures EncodeItems([a, b]) == EncodeItem(a) + EncodeItem(b)
  {
    hide EncodeItem, EncodeItems;
    OneItem(a);
    EncodeItemsAppend([a], b);
    assert [a] + [b] == [a, b];
  }

  lemma ThreeItems(a: Item, b: Item, c: Item)
    ensures EncodeItems([a, b, c]) == EncodeItem(a) + EncodeItem(b) + EncodeItem(c)
  {
    hide EncodeItem, EncodeItems;
    TwoItems(a, b);
    EncodeItemsAppend([a, b], c);
    assert [a, b] + [c] == [a, b, c];
  }

  lemma SmallArrayHead(n: nat)
    requires n < 24
    ensures Head(ARRAY, n) == [0x80 + n]
  {
    HeadIsShortest(4, n);
  }
}
