// Single-record messages: serializing a record, reading it back, and the exact round trip.
module RecordCodec {
  import opened Types
  import opened Cbor
  import opened Layout
  import opened Wire

  const ENCODING_V_1: byte := 1
  const MESSAGE_TYPE_SINGLE_REPORT: byte := 1
  const NODE_ID_LENGTH: nat := 4

  const MAX_SIGNATURE_SIZE: nat := 80
  const MAX_SERIALIZED_RECORD_SIZE: nat := 128

  // ---------------------------------------------------------------- the message as items

  // The wire code of a record type; encounters have none.
  function WireType(t: RecordType): Option<byte> {
    match t
    case GateReport => Some(0)
    case GateObservation => Some(1)
    case GateCommand => Some(3)
    case GateJob => Some(4)
    case _ => None
  }

  function WireState(s: GateState): Option<byte> {
    match s
    case Open => Some(0)
    case Closed => Some(1)
    case _ => None
  }

  predicate HasWireState(d: RecordData) {
    match d
    case MateEncounterData(_, _) => false
    case _ => WireState(d.state).Some?
  }

  // What the serializer accepts: a propagated type, an open or closed state, and a signature
  // if one is to be included.
  predicate Serializable(r: Record, includeSignature: bool) {
    WireType(r.Type()).Some? && HasWireState(r.body.data) && (includeSignature ==> r.signature.Some?)
  }

  function DataItems(d: RecordData): seq<Item>
    requires WireType(TypeOf(d)).Some? && HasWireState(d)
  {
    var state := Simple(WireState(d.state).value);
    match d
    case ReportData(_) => [state]
    case ObservationData(gate, _) => [Bytes(gate), state]
    case CommandData(gate, _) => [Bytes(gate), state]
    case JobData(gate, _, device) => [Bytes(gate), Bytes(device), state]
  }

  function TimestampItems(t: Timestamp): seq<Item> {
    [UInt(t.physical), UInt(t.logical)]
  }

  function HeaderItems(b: Body): seq<Item>
    requires WireType(TypeOf(b.data)).Some?
  {
    [Simple(WireType(TypeOf(b.data)).value), Bytes(b.writer), UInt(b.sequence)] + TimestampItems(b.timestamp)
  }

  const ENVELOPE: seq<Item> := [Simple(ENCODING_V_1), Simple(MESSAGE_TYPE_SINGLE_REPORT)]

  function MessageItems(r: Record, includeSignature: bool): seq<Item>
    requires Serializable(r, includeSignature)
  {
    ENVELOPE + HeaderItems(r.body) + DataItems(r.body.data)
    + (if includeSignature then [Bytes(r.signature.value)] else [])
  }

  function EncodeRecord(r: Record, includeSignature: bool): seq<byte>
    requires Serializable(r, includeSignature)
  {
    EncodeArray(MessageItems(r, includeSignature))
  }

  // ---------------------------------------------------------------- items as a record

  function AsNodeId(i: Item): Option<NodeId> {
    if i.Bytes? && |i.bytes| == 4 then Some(i.bytes) else None
  }

  // Either part of a timestamp; UINT32_MAX itself is refused.
  function AsClockPart(i: Item): Option<u32> {
    if i.UInt? && i.n < U32 - 1 then Some(i.n) else None
  }

  // A signature may come in chunks, unlike a node id.
  function AsSignature(i: Item): Option<seq<byte>> {
    if i.Bytes? || i.Chunks? then Some(i.bytes) else None
  }

  function AsState(i: Item): Option<GateState> {
    match AsU8(i)
    case Some(v) => if v == 0 then Some(Open) else if v == 1 then Some(Closed) else None
    case None => None
  }

  // What a decoding step makes of the items in front of it: a value and the items left.
  type Step<T> = Option<(T, seq<Item>)>

  function EnvelopeFrom(items: seq<Item>): Step<()> {
    if |items| >= 2 && AsU8(items[0]) == Some(ENCODING_V_1) && AsU8(items[1]) == Some(MESSAGE_TYPE_SINGLE_REPORT)
    then Some(((), items[2..]))
    else None
  }

  datatype WireHeader = WireHeader(code: byte, writer: NodeId, sequence: u64, timestamp: Timestamp)

  predicate KnownCode(code: byte) {
    code == 0 || code == 1 || code == 3 || code == 4
  }

  function HeaderFrom(items: seq<Item>): Step<WireHeader> {
    if |items| < 5 then None
    else
      var code, writer := AsU8(items[0]), AsNodeId(items[1]);
      var physical, logical := AsClockPart(items[3]), AsClockPart(items[4]);
      if code.None? || !KnownCode(code.value) || writer.None? || !items[2].UInt? || items[2].n >= U64
         || physical.None? || logical.None? then None
      else
        Some((WireHeader(code.value, writer.value, items[2].n, Timestamp(physical.value, logical.value)), items[5..]))
  }

  function DataFrom(code: byte, items: seq<Item>): Step<RecordData> {
    if code == 0 then
      if |items| >= 1 && AsState(items[0]).Some? then
        Some((ReportData(AsState(items[0]).value), items[1..]))
      else None
    else if code == 1 || code == 3 then
      if |items| >= 2 && AsNodeId(items[0]).Some? && AsState(items[1]).Some? then
        var gate, state := AsNodeId(items[0]).value, AsState(items[1]).value;
        Some((if code == 1 then ObservationData(gate, state) else CommandData(gate, state), items[2..]))
      else None
    else if code == 4 then
      if |items| >= 3 && AsNodeId(items[0]).Some? && AsNodeId(items[1]).Some? && AsState(items[2]).Some? then
        Some((JobData(AsNodeId(items[0]).value, AsState(items[2]).value, AsNodeId(items[1]).value), items[3..]))
      else None
    else None
  }

  // A decoded record together with the signature length reported to the caller.
  datatype Decoded = Decoded(record: Record, signatureLength: nat)

  // The signature element against the caller's buffer: None is the null buffer.
  function SignatureFrom(body: Body, items: seq<Item>, capacity: Option<nat>): Option<Decoded> {
    if items == [] then
      if capacity.Some? then None else Some(Decoded(Record(body, None), 0))
    else if |items| > 1 || AsSignature(items[0]).None? then None
    else
      var s := AsSignature(items[0]).value;
      if capacity.None? then Some(Decoded(Record(body, None), |s|))
      else if capacity.value < |s| then None
      else Some(Decoded(Record(body, Some(s)), |s|))
  }

  function RecordFrom(items: seq<Item>, capacity: Option<nat>): Option<Decoded> {
    match EnvelopeFrom(items)
    case None => None
    case Some((_, rest)) =>
      match HeaderFrom(rest)
      case None => None
      case Some((h, rest)) =>
        match DataFrom(h.code, rest)
        case None => None
        case Some((data, rest)) => SignatureFrom(Body(h.writer, h.sequence, h.timestamp, data), rest, capacity)
  }

  function DecodeRecord(buf: seq<byte>, capacity: Option<nat>): Option<Decoded> {
    match ReadArray(buf)
    case None => None
    case Some(items) => RecordFrom(items, capacity)
  }

  // ---------------------------------------------------------------- round trip

  predicate ClockFitsWire(t: Timestamp) {
    t.physical < U32 - 1 && t.logical < U32 - 1
  }

  // The first n items say a body, and the decoder makes just this of them.
  lemma BodyIsDecoded(items: seq<Item>, n: nat, b: Body)
    requires n <= |items| && IsBody(items[..n], b)
    ensures n >= 8 && EnvelopeFrom(items) == Some(((), items[2..]))
    ensures
      var header := HeaderFrom(items[2..]);
      if ClockFitsWire(b.timestamp) then
        && header.Some? && header.value.1 == items[7..]
        && Body(header.value.0.writer, header.value.0.sequence, header.value.0.timestamp, b.data) == b
        && DataFrom(header.value.0.code, items[7..]) == Some((b.data, items[n..]))
      else header == None
  {
    var front := items[..n];
    assert forall i :: 0 <= i < n ==> items[i] == front[i];
    assert items[2..][5..] == items[7..];
    assert items[7..][n - 7..] == items[n..];
  }

  lemma SplitLast(items: seq<Item>)
    requires items != []
    ensures items[|items| - 1..] == [items[|items| - 1]]
  {
  }

  // What decoding makes of a message, by the room for its signature; None is no buffer.
  function Outcome(b: Body, signature: Option<seq<byte>>, capacity: Option<nat>): Option<Decoded> {
    if !ClockFitsWire(b.timestamp) then None
    else if capacity.None? then Some(Decoded(Record(b, None), if signature.Some? then |signature.value| else 0))
    else if signature.None? || |signature.value| > capacity.value then None
    else Some(Decoded(Record(b, signature), |signature.value|))
  }

  // Items that say a record decode to it.
  lemma RecordIsDecoded(items: seq<Item>, b: Body, signature: Option<seq<byte>>, capacity: Option<nat>)
    requires IsRecord(items, b, signature)
    ensures RecordFrom(items, capacity) == Outcome(b, signature, capacity)
  {
    hide EnvelopeFrom, HeaderFrom, DataFrom, IsBody;
    var n := if signature.Some? then |items| - 1 else |items|;
    assert items[..|items|] == items && items[|items|..] == [];
    if signature.Some? {
      SplitLast(items);
    }
    BodyIsDecoded(items, n, b);
  }

  // And what decodes says the record it decodes to.
  lemma DecodedHeader(items: seq<Item>)
    requires EnvelopeFrom(items).Some? && HeaderFrom(items[2..]).Some?
    ensures
      var h := HeaderFrom(items[2..]).value.0;
      && |items| >= 7 && HeaderFrom(items[2..]).value.1 == items[7..] && KnownCode(h.code)
      && ClockFitsWire(h.timestamp)
      && forall data :: IsHeader(items[..7], h.code, Body(h.writer, h.sequence, h.timestamp, data))
  {
    assert items[2..][5..] == items[7..];
    assert forall i :: 0 <= i < 5 ==> items[2..][i] == items[..7][i + 2];
  }

  lemma HeaderOfMore(items: seq<Item>, n: nat, code: byte, b: Body)
    requires 7 <= n <= |items| && IsHeader(items[..7], code, b)
    ensures IsHeader(items[..n], code, b)
  {
    assert forall i :: 0 <= i < 7 ==> items[..7][i] == items[..n][i];
  }

  lemma DecodedBody(items: seq<Item>)
    requires EnvelopeFrom(items).Some? && HeaderFrom(items[2..]).Some?
    requires |items| >= 7 && DataFrom(HeaderFrom(items[2..]).value.0.code, items[7..]).Some?
    ensures
      var h := HeaderFrom(items[2..]).value.0;
      var (data, rest) := DataFrom(h.code, items[7..]).value;
      && 8 <= |items| - |rest| && rest == items[|items| - |rest|..]
      && IsBody(items[..|items| - |rest|], Body(h.writer, h.sequence, h.timestamp, data))
  {
    DecodedHeader(items);
    hide HeaderFrom, EnvelopeFrom, IsHeader;
    var h := HeaderFrom(items[2..]).value.0;
    var (data, rest) := DataFrom(h.code, items[7..]).value;
    var n := |items| - |rest|;
    HeaderOfMore(items, n, h.code, Body(h.writer, h.sequence, h.timestamp, data));
    assert forall i :: 0 <= i < |items| - 7 ==> items[7..][i] == items[i + 7];
  }

  lemma DecodedIsRecord(items: seq<Item>, capacity: Option<nat>) returns (signature: Option<seq<byte>>)
    requires RecordFrom(items, capacity).Some?
    ensures IsRecord(items, RecordFrom(items, capacity).value.record.body, signature)
    ensures RecordFrom(items, capacity) == Outcome(RecordFrom(items, capacity).value.record.body, signature, capacity)
  {
    assert items[2..] == EnvelopeFrom(items).value.1;
    DecodedHeader(items);
    hide EnvelopeFrom, HeaderFrom, DataFrom, IsBody, IsHeader;
    DecodedBody(items);
    var (data, rest) := DataFrom(HeaderFrom(items[2..]).value.0.code, items[7..]).value;
    signature := if rest == [] then None else AsSignature(rest[0]);
    assert rest == [] ==> items[..|items| - |rest|] == items;
  }

  lemma ItemsSayTheRecord(r: Record, includeSignature: bool)
    requires Serializable(r, includeSignature)
    ensures IsRecord(MessageItems(r, includeSignature), r.body, if includeSignature then r.signature else None)
  {
    var items := MessageItems(r, includeSignature);
    if includeSignature {
      assert items[..|items| - 1] == MessageItems(r, false);
    }
  }

  // Decoding what was encoded gives the same record and signature, and does so exactly when
  // both clock parts stay below UINT32_MAX and the signature fits the caller's buffer. Bytes
  // after the message do not matter.
  lemma RecordRoundTrip(r: Record, includeSignature: bool, capacity: Option<nat>, after: seq<byte>)
    requires Serializable(r, includeSignature)
    requires includeSignature ==> |r.signature.value| < U64
    ensures
      var length := if includeSignature then |r.signature.value| else 0;
      DecodeRecord(EncodeRecord(r, includeSignature) + after, capacity) ==
      if !ClockFitsWire(r.body.timestamp) then None
      else if capacity.None? then Some(Decoded(Record(r.body, None), length))
      else if !includeSignature || length > capacity.value then None
      else Some(Decoded(r, length))
  {
    ReadArrayOfArray(MessageItems(r, includeSignature), after);
    ItemsSayTheRecord(r, includeSignature);
    var signature := if includeSignature then r.signature else None;
    RecordIsDecoded(MessageItems(r, includeSignature), r.body, signature, capacity);
  }

  // A message that says a record stands at the start of the buffer, in whatever form: an array with
  // or without a count, arguments in any width, small numbers as simple values or as integers, the
  // signature in one piece or cut.
  ghost predicate Says(buf: seq<byte>, b: Body, signature: Option<seq<byte>>) {
    exists a: Array :: a.Writes(buf, Meanings(a.forms)) && IsRecord(Meanings(a.forms), b, signature)
  }

  // What there is to take, given the room for a signature.
  ghost predicate Takes(buf: seq<byte>, capacity: Option<nat>, d: Decoded) {
    exists signature ::
      Says(buf, d.record.body, signature) && Outcome(d.record.body, signature, capacity) == Some(d)
  }

  // The decoder takes this and nothing else.
  lemma {:induction false} DecodesIff(buf: seq<byte>, capacity: Option<nat>, d: Decoded)
    ensures DecodeRecord(buf, capacity) == Some(d) <==> Takes(buf, capacity, d)
  {
    hide RecordFrom, ReadArray, Meanings, Array.Writes, IsRecord, Outcome;
    if DecodeRecord(buf, capacity) == Some(d) {
      var a := ReadArrayIsWire(buf);
      ArrayMeaning(buf, a);
      var signature := DecodedIsRecord(Meanings(a.forms), capacity);
      assert Says(buf, d.record.body, signature);
    }
    forall signature | Says(buf, d.record.body, signature) && Outcome(d.record.body, signature, capacity) == Some(d)
      ensures DecodeRecord(buf, capacity) == Some(d)
    {
      SaidIsDecoded(buf, d.record.body, signature, capacity);
    }
  }

  lemma ArrayMeaning(buf: seq<byte>, a: Array)
    requires ReadArray(buf).Some? && a.Writes(buf, ReadArray(buf).value)
    ensures Meanings(a.forms) == ReadArray(buf).value
  {
    hide ReadArray;
  }

  lemma SaidIsDecoded(buf: seq<byte>, b: Body, signature: Option<seq<byte>>, capacity: Option<nat>)
    requires Says(buf, b, signature)
    ensures DecodeRecord(buf, capacity) == Outcome(b, signature, capacity)
  {
    hide RecordFrom, ReadArray, Meanings, Array.Writes, IsRecord, Outcome;
    var a: Array :| a.Writes(buf, Meanings(a.forms)) && IsRecord(Meanings(a.forms), b, signature);
    ReadArrayForm(buf, a, Meanings(a.forms));
    RecordIsDecoded(Meanings(a.forms), b, signature, capacity);
  }

  // So every form of a record decodes as the form the encoder writes.
  lemma {:induction false} EveryFormDecodesAlike(r: Record, buf: seq<byte>, capacity: Option<nat>, after: seq<byte>)
    requires Serializable(r, true) && |r.signature.value| < U64 && Says(buf, r.body, r.signature)
    ensures DecodeRecord(buf, capacity) == DecodeRecord(EncodeRecord(r, true) + after, capacity)
  {
    hide EncodeRecord, DecodeRecord, Says;
    SaidIsDecoded(buf, r.body, r.signature, capacity);
    RecordRoundTrip(r, true, capacity, after);
  }

  // A gate command as the backend writes it: all small numbers as integers, and no signature.
  function CommandOfIntegers(b: Body): seq<byte>
    requires b.data.CommandData? && (b.data.state == Open || b.data.state == Closed)
  {
    [0x89] + ([0x01, 0x01, 0x03]
              + ([0x44] + b.writer + NumberBytes(b.sequence) + NumberBytes(b.timestamp.physical))
              + (NumberBytes(b.timestamp.logical) + ([0x44] + b.data.gate)
                 + [if b.data.state == Open then 0x00 else 0x01]))
  }

  // Its nine elements, three by three.
  function FormsOfCommand(b: Body, k: nat): seq<Form>
    requires b.data.CommandData?
  {
    if k == 0 then [Number(1, Immediate), Number(1, Immediate), Number(3, Immediate)]
    else if k == 1 then
      [Whole(Piece(b.writer, Immediate)), Number(b.sequence, Shortest(b.sequence)),
       Number(b.timestamp.physical, Shortest(b.timestamp.physical))]
    else
      [Number(b.timestamp.logical, Shortest(b.timestamp.logical)), Whole(Piece(b.data.gate, Immediate)),
       Number(if b.data.state == Open then 0 else 1, Immediate)]
  }

  lemma FormsOfCommandAreBytes(b: Body)
    requires b.data.CommandData? && (b.data.state == Open || b.data.state == Closed)
    ensures
      var fs := FormsOfCommand(b, 0) + FormsOfCommand(b, 1) + FormsOfCommand(b, 2);
      AllForms(fs) && [0x89] + Forms(fs) == CommandOfIntegers(b)
  {
    FirstThree();
    MiddleThree(b.writer, b.sequence, b.timestamp.physical);
    LastThree(b.timestamp.logical, b.data.gate, if b.data.state == Open then 0 else 1);
    hide Forms, AllForms, NumberBytes;
    NineForms(FormsOfCommand(b, 0), FormsOfCommand(b, 1), FormsOfCommand(b, 2));
  }

  lemma FirstThree()
    ensures
      var fs := [Number(1, Immediate), Number(1, Immediate), Number(3, Immediate)];
      AllForms(fs) && Forms(fs) == [0x01, 0x01, 0x03]
  {
    hide Forms;
    ThreeForms(Number(1, Immediate), Number(1, Immediate), Number(3, Immediate));
  }

  lemma MiddleThree(id: NodeId, m: u64, n: u64)
    ensures
      var fs := [Whole(Piece(id, Immediate)), Number(m, Shortest(m)), Number(n, Shortest(n))];
      AllForms(fs) && Forms(fs) == [0x44] + id + NumberBytes(m) + NumberBytes(n)
  {
    hide Forms, Digits2, Digits4, Digits8;
    ThreeForms(Whole(Piece(id, Immediate)), Number(m, Shortest(m)), Number(n, Shortest(n)));
  }

  lemma LastThree(n: u64, id: NodeId, v: nat)
    requires v < 24
    ensures
      var fs := [Number(n, Shortest(n)), Whole(Piece(id, Immediate)), Number(v, Immediate)];
      AllForms(fs) && Forms(fs) == NumberBytes(n) + ([0x44] + id) + [v]
  {
    hide Forms, Digits2, Digits4, Digits8;
    ThreeForms(Number(n, Shortest(n)), Whole(Piece(id, Immediate)), Number(v, Immediate));
  }

  lemma CommandIsSaid(b: Body)
    requires b.data.CommandData? && (b.data.state == Open || b.data.state == Closed)
    ensures IsRecord(Meanings(FormsOfCommand(b, 0) + FormsOfCommand(b, 1) + FormsOfCommand(b, 2)), b, None)
  {
  }

  // The nodes read it as that command.
  lemma {:induction false} BackendCommandIsTaken(b: Body, after: seq<byte>)
    requires b.data.CommandData? && (b.data.state == Open || b.data.state == Closed) && ClockFitsWire(b.timestamp)
    ensures DecodeRecord(CommandOfIntegers(b) + after, None) == Some(Decoded(Record(b, None), 0))
  {
    var fs := FormsOfCommand(b, 0) + FormsOfCommand(b, 1) + FormsOfCommand(b, 2);
    var buf := CommandOfIntegers(b) + after;
    hide CommandOfIntegers, DecodeRecord, Forms, Array.Writes;
    FormsOfCommandAreBytes(b);
    ShortArrayStands(fs, after);
    CommandIsSaid(b);
    hide FormsOfCommand, IsRecord, Meanings;
    assert Counted(Immediate, fs).Writes(buf, Meanings(fs));
    assert Says(buf, b, None);
    SaidIsDecoded(buf, b, None, None);
  }

  lemma DataItemsAreInjective(d: RecordData, d': RecordData)
    requires WireType(TypeOf(d)).Some? && HasWireState(d) && WireType(TypeOf(d')).Some? && HasWireState(d')
    requires TypeOf(d) == TypeOf(d') && DataItems(d) == DataItems(d')
    ensures d == d'
  {
    assert DataItems(d)[0] == DataItems(d')[0];
    if !d.ReportData? {
      assert DataItems(d)[1] == DataItems(d')[1];
    }
    if d.JobData? {
      assert DataItems(d)[2] == DataItems(d')[2];
    }
  }

  lemma MessageItemsAreInjective(r: Record, s: Record)
    requires Serializable(r, true) && Serializable(s, true)
    requires MessageItems(r, true) == MessageItems(s, true)
    ensures r == s
  {
    var items, items' := MessageItems(r, true), MessageItems(s, true);
    var h, h' := HeaderItems(r.body), HeaderItems(s.body);
    assert items[2..7] == h && items'[2..7] == h';
    assert items[7..|items| - 1] == DataItems(r.body.data) && items'[7..|items'| - 1] == DataItems(s.body.data);
    assert items[|items| - 1] == Bytes(r.signature.value) && items'[|items'| - 1] == Bytes(s.signature.value);
    assert h[0] == h'[0] && h[1] == h'[1] && h[2] == h'[2] && h[3] == h'[3] && h[4] == h'[4];
    DataItemsAreInjective(r.body.data, s.body.data);
  }

  lemma ItemsAreEncodable(r: Record, includeSignature: bool)
    requires Serializable(r, includeSignature) && (includeSignature ==> |r.signature.value| < U64)
    ensures AllEncodable(MessageItems(r, includeSignature)) && |MessageItems(r, includeSignature)| < U64
  {
  }

  // Hence the wire format never confuses two records, whatever their timestamps.
  lemma {:induction false} EncodingIsInjective(r: Record, s: Record)
    requires Serializable(r, true) && Serializable(s, true)
    requires |r.signature.value| < U64 && |s.signature.value| < U64
    ensures EncodeRecord(r, true) == EncodeRecord(s, true) <==> r == s
  {
    if EncodeRecord(r, true) == EncodeRecord(s, true) {
      ItemsAreEncodable(r, true);
      ItemsAreEncodable(s, true);
      hide MessageItems, EncodeArray, ReadArray, AllEncodable, Serializable;
      ReadArrayOfArray(MessageItems(r, true), []);
      ReadArrayOfArray(MessageItems(s, true), []);
      assert EncodeRecord(r, true) + [] == EncodeRecord(r, true);
      MessageItemsAreInjective(r, s);
    }
  }

  // ---------------------------------------------------------------- the bytes

  lemma HeaderIsBytes(b: Body)
    requires WireType(TypeOf(b.data)).Some?
    ensures EncodeItems(ENVELOPE + HeaderItems(b)) == HeaderBytes(WireType(TypeOf(b.data)).value, b)
  {
    hide EncodeItem, EncodeItems, NumberBytes, StringBytes;
    var code := WireType(TypeOf(b.data)).value;
    var none: seq<Item> := [];
    NoItems();
    var items := ENVELOPE + HeaderItems(b);
    assert none + [Simple(1)] + [Simple(1)] + [Simple(code)] + [Bytes(b.writer)] + [UInt(b.sequence)]
      + [UInt(b.timestamp.physical)] + [UInt(b.timestamp.logical)] == items;
    ItemBytes(1, b.sequence, b.writer);
    ItemBytes(code, b.timestamp.physical, []);
    ItemBytes(1, b.timestamp.logical, []);
    EncodeItemsAppend(none, Simple(1));
    EncodeItemsAppend(none + [Simple(1)], Simple(1));
    EncodeItemsAppend(none + [Simple(1)] + [Simple(1)], Simple(code));
    EncodeItemsAppend(items[..3], Bytes(b.writer));
    EncodeItemsAppend(items[..4], UInt(b.sequence));
    EncodeItemsAppend(items[..5], UInt(b.timestamp.physical));
    EncodeItemsAppend(items[..6], UInt(b.timestamp.logical));
    assert items[..3] == none + [Simple(1)] + [Simple(1)] + [Simple(code)];
    assert items[..4] == items[..3] + [Bytes(b.writer)] && items[..5] == items[..4] + [UInt(b.sequence)];
    assert items[..6] == items[..5] + [UInt(b.timestamp.physical)] && items == items[..6] + [UInt(b.timestamp.logical)];
  }
  lemma DataIsBytes(d: RecordData)
    ensures DataBytes(d).Some? <==> WireType(TypeOf(d)).Some? && HasWireState(d)
    ensures DataBytes(d).Some? ==>
              && DataBytes(d).value.bytes == EncodeItems(DataItems(d))
              && DataBytes(d).value.code == WireType(TypeOf(d)).value && DataBytes(d).value.count == 7 + |DataItems(d)|
  {
    hide EncodeItem, EncodeItems;
    if DataBytes(d).Some? {
      var state := Simple(WireState(d.state).value);
      ItemBytes(state.v, 0, []);
      match d {
        case ReportData(_) => OneItem(state);
        case ObservationData(gate, _) =>
          IdBytes(gate);
          TwoItems(Bytes(gate), state);
        case CommandData(gate, _) =>
          IdBytes(gate);
          TwoItems(Bytes(gate), state);
        case JobData(gate, _, device) =>
          IdBytes(gate);
          IdBytes(device);
          ThreeItems(Bytes(gate), Bytes(device), state);
      }
    }
  }

  // A signature length is a machine word.
  predicate IsSized(r: Record) {
    r.signature.Some? ==> |r.signature.value| < U64
  }

  // What the encoder writes, byte for byte.
  lemma {:induction false} EncodedBytes(r: Record, includeSignature: bool)
    requires includeSignature ==> IsSized(r)
    ensures RecordBytes(r, includeSignature).Some? <==> Serializable(r, includeSignature)
    ensures Serializable(r, includeSignature) ==>
              RecordBytes(r, includeSignature) == Some(EncodeRecord(r, includeSignature))
  {
    DataIsBytes(r.body.data);
    hide EncodeItem, EncodeItems, DataItems, DataBytes, HeaderItems, HeaderBytes, StringBytes, Head, WireType,
      HasWireState;
    if Serializable(r, includeSignature) {
      var header, data := ENVELOPE + HeaderItems(r.body), DataItems(r.body.data);
      HeaderIsBytes(r.body);
      EncodeItemsConcat(header, data);
      HeaderCount(r.body);
      SmallArrayHead(|header + data|);
      SmallArrayHead(|header + data| + 1);
      if includeSignature {
        ItemBytes(0, 0, r.signature.value);
        EncodeItemsAppend(header + data, Bytes(r.signature.value));
      } else {
        assert header + data + [] == header + data;
      }
    }
  }

  lemma HeaderCount(b: Body)
    requires WireType(TypeOf(b.data)).Some?
    ensures |ENVELOPE + HeaderItems(b)| == 7
  {
  }

  // ---------------------------------------------------------------- size

  function DataSize(t: RecordType): nat {
    match t
    case GateReport => 1
    case GateObservation => 6
    case GateCommand => 6
    case GateJob => 11
    case _ => 0
  }

  lemma HeaderItemsSize(b: Body)
    requires WireType(TypeOf(b.data)).Some?
    ensures ItemsSize(HeaderItems(b)) ==
            6 + HeadSize(b.sequence) + HeadSize(b.timestamp.physical) + HeadSize(b.timestamp.logical)
  {
    ItemsSizeUnrolled(HeaderItems(b));
  }

  lemma DataItemsSize(d: RecordData)
    requires WireType(TypeOf(d)).Some? && HasWireState(d)
    ensures ItemsSize(DataItems(d)) == DataSize(TypeOf(d))
  {
    ItemsSizeUnrolled(DataItems(d));
  }

  // The size of a message, from the sizes of its variable parts.
  lemma EncodedSize(r: Record, includeSignature: bool)
    requires Serializable(r, includeSignature)
    ensures |EncodeRecord(r, includeSignature)| ==
            9 + HeadSize(r.body.sequence) + HeadSize(r.body.timestamp.physical) + HeadSize(r.body.timestamp.logical)
            + DataSize(r.Type())
            + (if includeSignature then HeadSize(|r.signature.value|) + |r.signature.value| else 0)
  {
    var items, h, d := MessageItems(r, includeSignature), HeaderItems(r.body), DataItems(r.body.data);
    var s := if includeSignature then [Bytes(r.signature.value)] else [];
    EncodeItemsSize(items);
    ItemsSizeConcat(ENVELOPE + h + d, s);
    ItemsSizeConcat(ENVELOPE + h, d);
    ItemsSizeConcat(ENVELOPE, h);
    ItemsSizeUnrolled(ENVELOPE);
    HeaderItemsSize(r.body);
    DataItemsSize(r.body.data);
    if includeSignature {
      ItemsSizeUnrolled(s);
    }
    assert |Head(ARRAY, |items|)| == 1;
  }

  // Every serializable record with a signature of at most 80 bytes fits the send buffer; a
  // job with maximal counters attains the bound.
  lemma EncodedRecordFits(r: Record)
    requires Serializable(r, true) && |r.signature.value| <= MAX_SIGNATURE_SIZE
    ensures |EncodeRecord(r, true)| <= 121 < MAX_SERIALIZED_RECORD_SIZE
    ensures |EncodeRecord(r, true)| == 121 <==>
            && r.Type() == GateJob && |r.signature.value| == MAX_SIGNATURE_SIZE
            && r.body.sequence >= U32
            && r.body.timestamp.physical >= 0x1_0000 && r.body.timestamp.logical >= 0x1_0000
  {
    EncodedSize(r, true);
  }

  // ---------------------------------------------------------------- the serializer

  // The number of elements announced for the main array; None is the error return.
  function ArraySize(r: Record, includeSignature: bool): Option<nat> {
    match r.Type()
    case GateReport => Some(8 + if includeSignature then 1 else 0)
    case GateObservation => Some(9 + if includeSignature then 1 else 0)
    case GateCommand => Some(9 + if includeSignature then 1 else 0)
    case GateJob => Some(10 + if includeSignature then 1 else 0)
    case _ => None
  }

  lemma ArraySizeIsItemCount(r: Record, includeSignature: bool)
    requires Serializable(r, includeSignature)
    ensures ArraySize(r, includeSignature) == Some(|MessageItems(r, includeSignature)|)
  {
  }

  method EncodeHlcTimestamp(e: Encoder, t: Timestamp) returns (ok: bool)
    requires e.Valid()
    modifies e, e.out
    ensures e.announced == old(e.announced)
    ensures ok ==> e.Valid() && e.added == old(e.added) + TimestampItems(t)
    ensures !ok ==> e.Overflows(old(e.added) + TimestampItems(t))
    ensures old(e.position) <= e.position && SameFrom(e.position, e.out[..], old(e.out[..]))
  {
    ghost var before := e.added;
    ok := e.Encode(UInt(t.physical));
    if !ok {
      e.OverflowsPrefix(before + [UInt(t.physical)], before + TimestampItems(t));
      return false;
    }
    assert before + [UInt(t.physical)] + [UInt(t.logical)] == before + TimestampItems(t);
    ok := e.Encode(UInt(t.logical));
  }

  method EncodeRecordHeader(e: Encoder, b: Body) returns (ok: bool)
    requires e.Valid()
    modifies e, e.out
    ensures e.announced == old(e.announced)
    ensures ok ==> e.Valid() && WireType(TypeOf(b.data)).Some? && e.added == old(e.added) + HeaderItems(b)
    ensures !ok && WireType(TypeOf(b.data)).Some? ==> e.Overflows(old(e.added) + HeaderItems(b))
    ensures old(e.position) <= e.position && SameFrom(e.position, e.out[..], old(e.out[..]))
  {
    if WireType(TypeOf(b.data)).None? {
      return false;
    }
    ghost var before, items := e.added, HeaderItems(b);
    assert e.added == before + items[..0];
    ok := e.Encode(Simple(WireType(TypeOf(b.data)).value));
    assert before + items[..0] + [items[0]] == before + items[..1];
    if !ok {
      e.OverflowsPrefix(before + items[..1], before + items);
      return false;
    }
    ok := e.Encode(Bytes(b.writer));
    assert before + items[..1] + [items[1]] == before + items[..2];
    if !ok {
      e.OverflowsPrefix(before + items[..2], before + items);
      return false;
    }
    ok := e.Encode(UInt(b.sequence));
    assert before + items[..2] + [items[2]] == before + items[..3];
    if !ok {
      e.OverflowsPrefix(before + items[..3], before + items);
      return false;
    }
    ok := EncodeHlcTimestamp(e, b.timestamp);
    assert before + items[..3] + TimestampItems(b.timestamp) == before + items;
  }

  method EncodeGateState(e: Encoder, state: GateState) returns (ok: bool)
    requires e.Valid()
    modifies e, e.out
    ensures e.announced == old(e.announced)
    ensures ok ==> e.Valid() && WireState(state).Some? && e.added == old(e.added) + [Simple(WireState(state).value)]
    ensures !ok && WireState(state).Some? ==> e.Overflows(old(e.added) + [Simple(WireState(state).value)])
    ensures old(e.position) <= e.position && SameFrom(e.position, e.out[..], old(e.out[..]))
  {
    if WireState(state).None? {
      return false;
    }
    ok := e.Encode(Simple(WireState(state).value));
  }

  method EncodeRecordData(e: Encoder, d: RecordData) returns (ok: bool)
    requires e.Valid()
    modifies e, e.out
    ensures e.announced == old(e.announced)
    ensures ok ==> e.Valid() && WireType(TypeOf(d)).Some? && HasWireState(d) && e.added == old(e.added) + DataItems(d)
    ensures !ok && WireType(TypeOf(d)).Some? && HasWireState(d) ==> e.Overflows(old(e.added) + DataItems(d))
    ensures old(e.position) <= e.position && SameFrom(e.position, e.out[..], old(e.out[..]))
  {
    if d.GateEncounterData? || d.MateEncounterData? {
      return false;
    }
    ghost var before, items := e.added, if HasWireState(d) then DataItems(d) else [];
    if !d.ReportData? {
      ok := e.Encode(Bytes(d.gate));
      if !ok {
        if HasWireState(d) {
          e.OverflowsPrefix(before + [Bytes(d.gate)], before + items);
        }
        return false;
      }
      if d.JobData? {
        ok := e.Encode(Bytes(d.device));
        if !ok {
          if HasWireState(d) {
            e.OverflowsPrefix(before + [Bytes(d.gate)] + [Bytes(d.device)], before + items);
          }
          return false;
        }
      }
    }
    ghost var state := Simple(if HasWireState(d) then WireState(d.state).value else 0);
    assert HasWireState(d) ==> before + items == e.added + [state];
    ok := EncodeGateState(e, d.state);
  }

  // Opens the main array and adds the version and the message type.
  method EncodeEnvelope(e: Encoder, size: nat) returns (ok: bool)
    requires e.position == 0 <= e.capacity <= e.out.Length
    modifies e, e.out
    ensures e.announced == size
    ensures ok ==> e.Valid() && e.added == ENVELOPE
    ensures !ok ==> e.Overflows(ENVELOPE)
    ensures SameFrom(e.position, e.out[..], old(e.out[..]))
  {
    hide EncodeItem, EncodeItems, Head;
    ok := e.CreateArray(size);
    if !ok {
      e.OverflowsPrefix([], ENVELOPE);
      return false;
    }
    ok := e.Encode(Simple(ENCODING_V_1));
    assert [] + [Simple(ENCODING_V_1)] == ENVELOPE[..1];
    if !ok {
      e.OverflowsPrefix(ENVELOPE[..1], ENVELOPE);
      return false;
    }
    ok := e.Encode(Simple(MESSAGE_TYPE_SINGLE_REPORT));
    assert ENVELOPE[..1] + [Simple(MESSAGE_TYPE_SINGLE_REPORT)] == ENVELOPE;
  }

  // Opens the main array and adds everything that belongs into it.
  method EncodeMessage(e: Encoder, r: Record, size: nat, includeSignature: bool) returns (ok: bool)
    requires e.position == 0 <= e.capacity <= e.out.Length
    modifies e, e.out
    ensures e.announced == size
    ensures ok ==> e.Valid() && Serializable(r, includeSignature) && e.added == MessageItems(r, includeSignature)
    ensures !ok && Serializable(r, includeSignature) ==> e.Overflows(MessageItems(r, includeSignature))
    ensures SameFrom(e.position, e.out[..], old(e.out[..]))
  {
    hide EncodeItem, EncodeItems, Head, HeaderItems, DataItems;
    ghost var serializable := Serializable(r, includeSignature);
    ghost var header := ENVELOPE + if WireType(r.Type()).Some? then HeaderItems(r.body) else [];
    ghost var data := header + if serializable then DataItems(r.body.data) else [];
    ghost var items := if serializable then MessageItems(r, includeSignature) else data;
    assert ENVELOPE <= header <= data <= items;
    ok := EncodeEnvelope(e, size);
    if !ok {
      e.OverflowsPrefix(ENVELOPE, items);
      return false;
    }
    ok := EncodeRecordHeader(e, r.body);
    if !ok {
      if serializable {
        e.OverflowsPrefix(header, items);
      }
      return false;
    }
    ok := EncodeRecordData(e, r.body.data);
    if !ok {
      if serializable {
        e.OverflowsPrefix(data, items);
      }
      return false;
    }
    if includeSignature {
      if r.signature.None? {
        return false;
      }
      ok := e.Encode(Bytes(r.signature.value));
    }
  }

  // On success `length` bytes of the buffer hold the message and the rest is untouched.
  method SerializeRecordWith(r: Record, out: array<byte>, capacity: nat, includeSignature: bool)
    returns (result: int, length: nat)
    requires capacity <= out.Length
    modifies out
    ensures result == if Serializable(r, includeSignature) && |EncodeRecord(r, includeSignature)| <= capacity then 0
                      else -1
    ensures result == 0 ==> length <= capacity && out[..length] == EncodeRecord(r, includeSignature)
    ensures result == 0 ==> out[length..] == old(out[..])[length..]
  {
    hide EncodeItem, EncodeItems, Head, MessageItems;
    length := 0;
    var size := ArraySize(r, includeSignature);
    if size.None? {
      return -1, length;
    }
    if Serializable(r, includeSignature) {
      ArraySizeIsItemCount(r, includeSignature);
    }
    var e := new Encoder(out, capacity);
    var ok := EncodeMessage(e, r, size.value, includeSignature);
    if !ok {
      return -1, length;
    }
    ok := e.CloseArray();
    if !ok {
      return -1, length;
    }
    return 0, e.position;
  }

  // Success, and exactly the bytes of the layout at the start of the buffer.
  method SerializeRecord(r: Record, out: array<byte>, capacity: nat) returns (result: int, length: nat)
    requires capacity <= out.Length
    modifies out
    ensures result == if Serializable(r, true) && |EncodeRecord(r, true)| <= capacity then 0 else -1
    ensures result == 0 ==> length <= capacity && out[..length] == EncodeRecord(r, true)
    ensures result == 0 ==> out[length..] == old(out[..])[length..]
    ensures IsSized(r) ==> result == if FitsIn(RecordBytes(r, true), capacity) then 0 else -1
    ensures IsSized(r) && result == 0 ==> RecordBytes(r, true) == Some(out[..length])
  {
    hide EncodeRecord, RecordBytes, Serializable;
    if IsSized(r) {
      EncodedBytes(r, true);
    }
    result, length := SerializeRecordWith(r, out, capacity, true);
  }

  method SerializeRecordNoSig(r: Record, out: array<byte>, capacity: nat) returns (result: int, length: nat)
    requires capacity <= out.Length
    modifies out
    ensures result == if FitsIn(RecordBytes(r, false), capacity) then 0 else -1
    ensures result == 0 ==> length <= capacity && RecordBytes(r, false) == Some(out[..length])
    ensures result == 0 ==> out[length..] == old(out[..])[length..]
  {
    hide EncodeRecord, RecordBytes, Serializable;
    EncodedBytes(r, false);
    result, length := SerializeRecordWith(r, out, capacity, false);
  }

  // ---------------------------------------------------------------- the deserializer

  // A decoding step on the cursor did what its specification makes of the remaining items.
  ghost predicate Tracks<T>(spec: Step<T>, got: Option<T>, rest: Option<seq<Item>>) {
    match spec
    case None => got == None
    case Some((v, tail)) => got == Some(v) && rest == Some(tail)
  }

  method TakeU8(c: Cursor) returns (v: Option<byte>, ghost item: Item)
    modifies c
    ensures v.Some? ==> Consumed(old(c.Rest()), item, c.Rest()) && AsU8(item) == v
    ensures v.None? ==> old(c.Rest()) == None || old(c.Rest()) == Some([]) || AsU8(old(c.Rest()).value[0]) == None
  {
    item := UInt(0);
    var next := c.Peek();
    if next.None? || AsU8(next.value).None? {
      return None, item;
    }
    c.Advance();
    return AsU8(next.value), next.value;
  }

  method TakeNodeId(c: Cursor) returns (id: Option<NodeId>, ghost item: Item)
    modifies c
    ensures id.Some? ==> Consumed(old(c.Rest()), item, c.Rest()) && AsNodeId(item) == id
    ensures id.None? ==> old(c.Rest()) == None || old(c.Rest()) == Some([]) || AsNodeId(old(c.Rest()).value[0]) == None
  {
    item := UInt(0);
    var next := c.Peek();
    if next.None? || !next.value.Bytes? || |next.value.bytes| != NODE_ID_LENGTH {
      return None, item;
    }
    c.Advance();
    return Some(next.value.bytes), next.value;
  }

  // An unsigned integer below `bound`.
  method TakeUInt(c: Cursor, bound: nat) returns (n: Option<nat>, ghost item: Item)
    modifies c
    ensures n.Some? ==> Consumed(old(c.Rest()), item, c.Rest()) && item == UInt(n.value) && n.value < bound
    ensures n.None? && old(c.Rest()).Some? && old(c.Rest()).value != [] ==>
              !(old(c.Rest()).value[0].UInt? && old(c.Rest()).value[0].n < bound)
  {
    item := UInt(0);
    var next := c.Peek();
    if next.None? || !next.value.UInt? || next.value.n >= bound {
      return None, item;
    }
    c.Advance();
    return Some(next.value.n), next.value;
  }

  method TakeState(c: Cursor) returns (state: Option<GateState>, ghost item: Item)
    modifies c
    ensures state.Some? ==> Consumed(old(c.Rest()), item, c.Rest()) && AsState(item) == state
    ensures state.None? ==>
              old(c.Rest()) == None || old(c.Rest()) == Some([]) || AsState(old(c.Rest()).value[0]) == None
  {
    var v;
    v, item := TakeU8(c);
    if v == Some(0) {
      return Some(Open), item;
    } else if v == Some(1) {
      return Some(Closed), item;
    }
    return None, item;
  }

  method DecodeEnvelope(c: Cursor) returns (envelope: Option<()>)
    modifies c
    ensures old(c.Rest()).Some? ==> Tracks(EnvelopeFrom(old(c.Rest()).value), envelope, c.Rest())
    ensures old(c.Rest()).None? && envelope.Some? ==> c.Rest() == None
  {
    hide ReadRest;
    ghost var all := c.Rest();
    var version, i0 := TakeU8(c);
    if version != Some(ENCODING_V_1) {
      return None;
    }
    var messageType, i1 := TakeU8(c);
    if messageType != Some(MESSAGE_TYPE_SINGLE_REPORT) {
      return None;
    }
    assert all.Some? ==> all.value[2..] == c.Rest().value;
    return Some(());
  }

  method DecodeRecordHeader(c: Cursor) returns (header: Option<WireHeader>)
    modifies c
    ensures old(c.Rest()).Some? ==> Tracks(HeaderFrom(old(c.Rest()).value), header, c.Rest())
    ensures old(c.Rest()).None? && header.Some? ==> c.Rest() == None
  {
    hide ReadRest;
    ghost var all := c.Rest();
    var code, i0 := TakeU8(c);
    if code.None? || !KnownCode(code.value) {
      return None;
    }
    var writer, i1 := TakeNodeId(c);
    if writer.None? {
      return None;
    }
    var sequence, i2 := TakeUInt(c, U64);
    if sequence.None? {
      return None;
    }
    var physical, i3 := TakeUInt(c, U32 - 1);
    if physical.None? {
      return None;
    }
    var logical, i4 := TakeUInt(c, U32 - 1);
    if logical.None? {
      return None;
    }
    assert all.Some? ==> all.value[5..] == c.Rest().value;
    return Some(WireHeader(code.value, writer.value, sequence.value, Timestamp(physical.value, logical.value)));
  }

  method DecodeRecordData(c: Cursor, code: byte) returns (data: Option<RecordData>)
    modifies c
    ensures old(c.Rest()).Some? ==> Tracks(DataFrom(code, old(c.Rest()).value), data, c.Rest())
    ensures old(c.Rest()).None? && data.Some? ==> c.Rest() == None
  {
    hide ReadRest;
    ghost var all := c.Rest();
    if code == 0 {
      var state, i0 := TakeState(c);
      if state.None? {
        return None;
      }
      return Some(ReportData(state.value));
    }
    if !KnownCode(code) {
      return None;
    }
    var gate, i0 := TakeNodeId(c);
    if gate.None? {
      return None;
    }
    if code == 4 {
      var device, i1 := TakeNodeId(c);
      if device.None? {
        return None;
      }
      var state, i2 := TakeState(c);
      if state.None? {
        return None;
      }
      assert all.Some? ==> all.value[3..] == c.Rest().value;
      return Some(JobData(gate.value, state.value, device.value));
    }
    var state, i1 := TakeState(c);
    if state.None? {
      return None;
    }
    assert all.Some? ==> all.value[2..] == c.Rest().value;
    return Some(if code == 1 then ObservationData(gate.value, state.value) else CommandData(gate.value, state.value));
  }

  method DecodeRecordSignature(c: Cursor, body: Body, capacity: Option<nat>) returns (decoded: Option<Decoded>)
    modifies c
    ensures old(c.Rest()).Some? ==> decoded == SignatureFrom(body, old(c.Rest()).value, capacity)
    ensures old(c.Rest()).None? ==> decoded == None
  {
    hide ReadRest;
    var end := c.AtEnd();
    if end {
      if capacity.Some? {
        return None;
      }
      return Some(Decoded(Record(body, None), 0));
    }
    var signature := c.Take();
    if signature.None? || AsSignature(signature.value).None? {
      return None;
    }
    var s := AsSignature(signature.value).value;
    if capacity.Some? && capacity.value < |s| {
      return None;
    }
    end := c.AtEnd();
    if !end {
      return None;
    }
    return Some(Decoded(Record(body, if capacity.Some? then Some(s) else None), |s|));
  }

  // The stepwise decoder computes DecodeRecord on every input, well formed or not.
  method DeserializeRecord(buf: seq<byte>, capacity: Option<nat>) returns (decoded: Option<Decoded>)
    ensures decoded == DecodeRecord(buf, capacity)
    ensures forall d :: decoded == Some(d) <==> Takes(buf, capacity, d)
  {
    forall d ensures DecodeRecord(buf, capacity) == Some(d) <==> Takes(buf, capacity, d) {
      DecodesIff(buf, capacity, d);
    }
    hide Takes;
    var c := new Cursor(buf);
    var ok := c.EnterArray();
    if !ok {
      return None;
    }
    var envelope := DecodeEnvelope(c);
    if envelope.None? {
      return None;
    }
    var header := DecodeRecordHeader(c);
    if header.None? {
      return None;
    }
    var h := header.value;
    var data := DecodeRecordData(c, h.code);
    if data.None? {
      return None;
    }
    decoded := DecodeRecordSignature(c, Body(h.writer, h.sequence, h.timestamp, data.value), capacity);
  }
}
