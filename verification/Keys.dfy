// Ten-byte store keys: record type, key kind, and two node ids.
module Keys {
  import opened Types

  const TABLES_KEY_SIZE: nat := 10
  type Key = s: seq<byte> | |s| == 10 witness [0, 0, 0, 0, 0, 0, 0, 0, 0, 0]

  datatype KeyKind = HeaderKind | DataKind | SignatureKind | SignatureLengthKind

  function KindCode(k: KeyKind): byte {
    match k
    case HeaderKind => 1
    case DataKind => 2
    case SignatureKind => 3
    case SignatureLengthKind => 4
  }

  function TypeCode(t: RecordType): byte {
    match t
    case GateReport => 0
    case GateObservation => 1
    case GateEncounter => 2
    case MateEncounter => 3
    case GateCommand => 4
    case GateJob => 5
  }

  // The two ids in the key of a record; an unused place holds zeros.
  function FirstId(b: Body): NodeId {
    match b.data
    case CommandData(gate, _) => gate
    case JobData(gate, _, _) => gate
    case _ => b.writer
  }

  function SecondId(b: Body): NodeId {
    match b.data
    case ReportData(_) => ZERO_ID
    case ObservationData(gate, _) => gate
    case GateEncounterData(gate, _, _) => gate
    case MateEncounterData(mate, _) => mate
    case CommandData(_, _) => ZERO_ID
    case JobData(_, _, device) => device
  }

  function MakeKey(t: RecordType, first: NodeId, second: NodeId): Key {
    [TypeCode(t), KindCode(HeaderKind)] + first + second
  }

  // The header key under which a record is filed.
  function KeyOf(b: Body): Key {
    MakeKey(TypeOf(b.data), FirstId(b), SecondId(b))
  }

  function WithKind(key: Key, kind: KeyKind): Key {
    key[1 := KindCode(kind)]
  }

  predicate IsHeaderKey(key: Key) {
    key[1] == KindCode(HeaderKind)
  }

  // ---------------------------------------------------------------- keys identify records

  // What a key is meant to identify, independent of any byte layout.
  datatype Identity =
    | ReportOf(writer: NodeId)
    | ObservationOf(writer: NodeId, gate: NodeId)
    | GateEncounterOf(writer: NodeId, gate: NodeId)
    | MateEncounterOf(writer: NodeId, mate: NodeId)
    | CommandOf(gate: NodeId)
    | JobOf(gate: NodeId, device: NodeId)

  function IdentityOf(b: Body): Identity {
    match b.data
    case ReportData(_) => ReportOf(b.writer)
    case ObservationData(gate, _) => ObservationOf(b.writer, gate)
    case GateEncounterData(gate, _, _) => GateEncounterOf(b.writer, gate)
    case MateEncounterData(mate, _) => MateEncounterOf(b.writer, mate)
    case CommandData(gate, _) => CommandOf(gate)
    case JobData(gate, _, device) => JobOf(gate, device)
  }

  lemma KeyFields(t: RecordType, first: NodeId, second: NodeId)
    ensures
      var k := MakeKey(t, first, second);
      k[0] == TypeCode(t) && IsHeaderKey(k) && k[2..6] == first && k[6..10] == second
  {
  }

  lemma KeysAreInjective(a: Body, b: Body)
    ensures KeyOf(a) == KeyOf(b) <==> IdentityOf(a) == IdentityOf(b)
  {
    KeyFields(TypeOf(a.data), FirstId(a), SecondId(a));
    KeyFields(TypeOf(b.data), FirstId(b), SecondId(b));
  }

  // The key of a record, byte for byte.
  lemma {:induction false} KeyLayout(b: Body)
    ensures KeyOf(b) ==
            match b.data
            case ReportData(_) => [0, 1] + b.writer + [0, 0, 0, 0]
            case ObservationData(gate, _) => [1, 1] + b.writer + gate
            case GateEncounterData(gate, _, _) => [2, 1] + b.writer + gate
            case MateEncounterData(mate, _) => [3, 1] + b.writer + mate
            case CommandData(gate, _) => [4, 1] + gate + [0, 0, 0, 0]
            case JobData(gate, _, device) => [5, 1] + gate + device
    ensures WithKind(KeyOf(b), DataKind) == KeyOf(b)[1 := 2] && WithKind(KeyOf(b), SignatureKind) == KeyOf(b)[1 := 3]
    ensures WithKind(KeyOf(b), SignatureLengthKind) == KeyOf(b)[1 := 4]
  {
  }

  // The four keys of a record are distinct and no two records share any of them.
  lemma KindsAreDisjoint(a: Key, b: Key, i: KeyKind, j: KeyKind)
    requires IsHeaderKey(a) && IsHeaderKey(b)
    ensures WithKind(a, i) == WithKind(b, j) <==> a == b && i == j
    ensures WithKind(a, HeaderKind) == a
    ensures WithKind(WithKind(a, i), j) == WithKind(a, j)
    ensures IsHeaderKey(WithKind(a, i)) <==> i == HeaderKind
  {
    if WithKind(a, i) == WithKind(b, j) {
      assert WithKind(a, i)[1] == WithKind(b, j)[1];
      assert i == j;
      assert a == WithKind(a, i)[1 := KindCode(HeaderKind)];
      assert b == WithKind(b, j)[1 := KindCode(HeaderKind)];
    }
  }

  // ---------------------------------------------------------------- the key buffer

  method SetByte(key: array<byte>, position: nat, value: byte)
    requires key.Length == 10 && position < 10
    modifies key
    ensures key[..] == old(key[..])[position := value]
  {
    key[position] := value;
  }

  // Selects one of the four keys of the record the buffer names.
  method SelectKind(key: array<byte>, kind: KeyKind)
    requires key.Length == 10
    modifies key
    ensures key[..] == WithKind(old(key[..]), kind)
  {
    SetByte(key, 1, KindCode(kind));
  }

  method NodeIdToBytes(id: NodeId, key: array<byte>, position: nat)
    requires key.Length == 10 && position + 4 <= 10
    modifies key
    ensures key[..] == old(key[..])[..position] + id + old(key[..])[position + 4..]
  {
    var i := 0;
    while i < NODE_ID_SIZE
      invariant 0 <= i <= 4
      invariant forall j :: 0 <= j < 10 ==>
                              key[j] == if position <= j < position + i then id[j - position] else old(key[j])
    {
      key[position + i] := id[i];
      i := i + 1;
    }
  }

  // The common shape of the six key constructors: clear, header kind, type, then the ids that
  // are present.
  method FillKey(t: RecordType, first: Option<NodeId>, second: Option<NodeId>, key: array<byte>)
    requires key.Length == 10
    modifies key
    ensures key[..] == MakeKey(t, if first.Some? then first.value else ZERO_ID,
                               if second.Some? then second.value else ZERO_ID)
  {
    var i := 0;
    while i < TABLES_KEY_SIZE
      invariant 0 <= i <= 10
      invariant forall j :: 0 <= j < i ==> key[j] == 0
    {
      key[i] := 0;
      i := i + 1;
    }
    SelectKind(key, HeaderKind);
    SetByte(key, 0, TypeCode(t));
    if first.Some? {
      NodeIdToBytes(first.value, key, 2);
    }
    if second.Some? {
      NodeIdToBytes(second.value, key, 2 + NODE_ID_SIZE);
    }
  }

  method GetRecordKey(body: Body, key: array<byte>)
    requires key.Length == 10
    modifies key
    ensures key[..] == KeyOf(body)
  {
    match body.data {
      case ReportData(_) =>
        FillKey(GateReport, Some(body.writer), None, key);
      case ObservationData(gate, _) =>
        FillKey(GateObservation, Some(body.writer), Some(gate), key);
      case CommandData(gate, _) =>
        FillKey(GateCommand, Some(gate), None, key);
      case JobData(gate, _, device) =>
        FillKey(GateJob, Some(gate), Some(device), key);
      case GateEncounterData(gate, _, _) =>
        FillKey(GateEncounter, Some(body.writer), Some(gate), key);
      case MateEncounterData(mate, _) =>
        FillKey(MateEncounter, Some(body.writer), Some(mate), key);
    }
  }
}
