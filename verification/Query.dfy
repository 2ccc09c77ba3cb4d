// Table queries: evaluated directly on a record, or compiled to a key pattern with a bit mask
// and run by the store. Where the two agree, and where they do not.
module Query {
  import opened Types
  import opened Keys
  import opened Store

  // None is the undefined type, and NULL for the two ids.
  datatype TableQuery = TableQuery(recordType: Option<RecordType>, writer: Option<NodeId>, involved: Option<NodeId>)

  // ---------------------------------------------------------------- direct evaluation

  predicate InvolvesNode(b: Body, id: NodeId) {
    b.writer == id ||
    match b.data
    case ReportData(_) => false
    case ObservationData(gate, _) => gate == id
    case GateEncounterData(gate, _, _) => gate == id
    case MateEncounterData(mate, _) => mate == id
    case CommandData(gate, _) => gate == id
    case JobData(gate, _, device) => gate == id || device == id
  }

  predicate RecordMatches(b: Body, q: TableQuery) {
    && (q.recordType.Some? ==> TypeOf(b.data) == q.recordType.value)
    && (q.writer.Some? ==> b.writer == q.writer.value)
    && (q.involved.Some? ==> InvolvesNode(b, q.involved.value))
  }

  // ---------------------------------------------------------------- compiled evaluation

  const FULL_MASK: NodeId := [255, 255, 255, 255]

  function IdPattern(id: Option<NodeId>): NodeId {
    if id.Some? then id.value else ZERO_ID
  }

  function IdMask(id: Option<NodeId>): NodeId {
    if id.Some? then FULL_MASK else ZERO_ID
  }

  function TypePattern(t: Option<RecordType>): seq<byte> {
    [if t.Some? then TypeCode(t.value) else 0, KindCode(HeaderKind)]
  }

  function TypeMask(t: Option<RecordType>): seq<byte> {
    [if t.Some? then 255 else 0, 255]
  }

  function Compile(q: TableQuery): StoreQuery {
    StoreQuery(TypePattern(q.recordType) + IdPattern(q.writer) + IdPattern(q.involved),
               Some(TypeMask(q.recordType) + IdMask(q.writer) + IdMask(q.involved)))
  }

  // What a compiled query asks of a record, in terms of the ids in its key.
  predicate KeyMatches(b: Body, q: TableQuery) {
    && (q.recordType.Some? ==> TypeOf(b.data) == q.recordType.value)
    && (q.writer.Some? ==> FirstId(b) == q.writer.value)
    && (q.involved.Some? ==> SecondId(b) == q.involved.value)
  }

  lemma TypeUnderMask(t: RecordType, f: Option<RecordType>)
    ensures Matches([TypeCode(t), KindCode(HeaderKind)], StoreQuery(TypePattern(f), Some(TypeMask(f)))) <==>
            (f.Some? ==> t == f.value)
  {
    var key, q := [TypeCode(t), KindCode(HeaderKind)], StoreQuery(TypePattern(f), Some(TypeMask(f)));
    FullMaskByte(key[0], q.key[0]);
    EmptyMaskByte(key[0], q.key[0]);
    FullMaskByte(key[1], q.key[1]);
    if Matches(key, q) {
      assert Masked(key[0], q.key[0], q.mask.value[0]) == 0;
    }
  }

  lemma IdUnderMask(id: NodeId, f: Option<NodeId>)
    ensures Matches(id, StoreQuery(IdPattern(f), Some(IdMask(f)))) <==> (f.Some? ==> id == f.value)
  {
    var q := StoreQuery(IdPattern(f), Some(IdMask(f)));
    forall i | 0 <= i < 4
      ensures Masked(id[i], q.key[i], 255) == 0 <==> id[i] == q.key[i]
      ensures Masked(id[i], q.key[i], 0) == 0
    {
      FullMaskByte(id[i], q.key[i]);
      EmptyMaskByte(id[i], q.key[i]);
    }
    if f.Some? && Matches(id, q) {
      forall i | 0 <= i < 4 ensures id[i] == f.value[i] {
        assert Masked(id[i], q.key[i], q.mask.value[i]) == 0;
      }
    }
  }

  // A masked match of sequences is a masked match of their halves.
  lemma MatchesSplits(k1: seq<byte>, k2: seq<byte>, p1: seq<byte>, p2: seq<byte>, m1: seq<byte>, m2: seq<byte>)
    requires |k1| == |p1| == |m1| && |k2| == |p2| == |m2|
    ensures Matches(k1 + k2, StoreQuery(p1 + p2, Some(m1 + m2))) <==>
            Matches(k1, StoreQuery(p1, Some(m1))) && Matches(k2, StoreQuery(p2, Some(m2)))
  {
    var q := StoreQuery(p1 + p2, Some(m1 + m2));
    if Matches(k1 + k2, q) {
      forall i | 0 <= i < |k1| ensures Masked(k1[i], p1[i], m1[i]) == 0 {
        assert Masked((k1 + k2)[i], q.key[i], q.mask.value[i]) == 0;
      }
      forall i | 0 <= i < |k2| ensures Masked(k2[i], p2[i], m2[i]) == 0 {
        assert Masked((k1 + k2)[|k1| + i], q.key[|k1| + i], q.mask.value[|k1| + i]) == 0;
      }
    }
  }

  lemma CompiledMeaning(b: Body, q: TableQuery)
    ensures Matches(KeyOf(b), Compile(q)) <==> KeyMatches(b, q)
  {
    var head := [TypeCode(TypeOf(b.data)), KindCode(HeaderKind)];
    MatchesSplits(head + FirstId(b), SecondId(b), TypePattern(q.recordType) + IdPattern(q.writer),
                  IdPattern(q.involved), TypeMask(q.recordType) + IdMask(q.writer), IdMask(q.involved));
    MatchesSplits(head, FirstId(b), TypePattern(q.recordType), IdPattern(q.writer),
                  TypeMask(q.recordType), IdMask(q.writer));
    TypeUnderMask(TypeOf(b.data), q.recordType);
    IdUnderMask(FirstId(b), q.writer);
    IdUnderMask(SecondId(b), q.involved);
  }

  // A compiled query only ever selects header keys.
  lemma CompiledSelectsHeaderKeys(k: seq<byte>, q: TableQuery)
    requires Matches(k, Compile(q))
    ensures |k| == 10 && IsHeaderKey(k)
  {
    var compiled := Compile(q);
    assert |compiled.key| == 10 && compiled.key[1] == KindCode(HeaderKind) && compiled.mask.value[1] == 255;
    assert Masked(k[1], compiled.key[1], compiled.mask.value[1]) == 0;
    FullMaskByte(k[1], compiled.key[1]);
  }

  // ---------------------------------------------------------------- where both evaluations agree

  // Without an involved id: no writer filter, or a type whose key starts with the writer. With
  // one: only a writer filter on a type that holds the involved id in its key and a writer other
  // than the involved id, or a report query where both sides degenerate to the same answer.
  predicate InAgreement(q: TableQuery) {
    if q.involved.None? then
      q.writer.None? || (q.recordType.Some? && WriterKeyed(q.recordType.value))
    else
      && q.writer.Some?
      && q.recordType.Some?
      && WriterKeyed(q.recordType.value)
      && (if q.recordType.value == GateReport
          then q.writer.value == q.involved.value <==> q.involved.value == ZERO_ID
          else q.writer.value != q.involved.value)
  }

  function Other(id: NodeId): (r: NodeId)
    ensures r != id
  {
    var r := id[0 := if id[0] == 0 then 1 else 0];
    assert r[0] != id[0];
    r
  }

  // A record on which the two evaluations differ, for a query outside the agreement.
  function Discrepancy(q: TableQuery): Body {
    var zeroTime := Timestamp(0, 0);
    if q.involved.None? then
      var w := if q.writer.Some? then q.writer.value else ZERO_ID;
      Body(w, 0, zeroTime, if q.recordType == Some(GateJob) then JobData(Other(w), Open, w)
           else CommandData(Other(w), Open))
    else
      var i := q.involved.value;
      var w := if q.writer.Some? then q.writer.value else i;
      match q.recordType
      case Some(GateReport) =>
        Body(if q.writer.None? && i == ZERO_ID then Other(i) else w, 0, zeroTime, ReportData(Open))
      case Some(GateObservation) => Body(w, 0, zeroTime, ObservationData(Other(i), Open))
      case Some(GateEncounter) => Body(w, 0, zeroTime, GateEncounterData(Other(i), Open, 0))
      case Some(MateEncounter) => Body(w, 0, zeroTime, MateEncounterData(Other(i), 0))
      case Some(GateCommand) =>
        if q.writer.None? then
          Body(if i == ZERO_ID then Other(i) else i, 0, zeroTime, CommandData(Other(i), Open))
        else
          Body(w, 0, zeroTime, CommandData(if i != ZERO_ID then i else if w == ZERO_ID then Other(w) else w, Open))
      case _ =>
        if q.writer.None? then Body(i, 0, zeroTime, JobData(i, Open, Other(i)))
        else Body(w, 0, zeroTime, JobData(Other(w), Open, i))
  }

  lemma DiscrepancyDiffers(q: TableQuery)
    requires !InAgreement(q)
    ensures KeyMatches(Discrepancy(q), q) != RecordMatches(Discrepancy(q), q)
  {
    // One case for each shape of the record.
    if q.involved.None? {
    } else if q.recordType == Some(GateReport) {
    } else if q.recordType.Some? && WriterKeyed(q.recordType.value) {
    } else if q.recordType == Some(GateCommand) {
    } else {
    }
  }

  lemma AgreementAgrees(b: Body, q: TableQuery)
    requires InAgreement(q)
    ensures KeyMatches(b, q) <==> RecordMatches(b, q)
  {
  }

  // Running a query in the store finds exactly the records it matches directly if and only if
  // the query lies in the agreement.
  lemma StoreQueryAgreesIff(q: TableQuery)
    ensures (forall b: Body :: Matches(KeyOf(b), Compile(q)) <==> RecordMatches(b, q)) <==> InAgreement(q)
  {
    if InAgreement(q) {
      forall b: Body ensures Matches(KeyOf(b), Compile(q)) <==> RecordMatches(b, q) {
        CompiledMeaning(b, q);
        AgreementAgrees(b, q);
      }
    } else {
      CompiledMeaning(Discrepancy(q), q);
      DiscrepancyDiffers(q);
    }
  }

  // ---------------------------------------------------------------- where the store yields only matches

  // For records of one type: the key pattern pins what the filters ask for, or no record of the
  // type has such a key at all.
  predicate SoundFor(t: RecordType, writer: Option<NodeId>, involved: Option<NodeId>) {
    match t
    case GateReport => involved != Some(ZERO_ID) || writer == Some(ZERO_ID)
    case GateCommand => if involved.Some? then involved.value != ZERO_ID else writer.None?
    case GateJob => writer.None?
    case _ => true
  }

  predicate YieldsOnlyMatches(q: TableQuery) {
    if q.recordType.Some? then SoundFor(q.recordType.value, q.writer, q.involved)
    else
      && SoundFor(GateReport, q.writer, q.involved)
      && SoundFor(GateCommand, q.writer, q.involved)
      && SoundFor(GateJob, q.writer, q.involved)
  }

  // A type of record for which the store yields too much.
  function UnsoundType(q: TableQuery): RecordType {
    if q.recordType.Some? then q.recordType.value
    else if !SoundFor(GateReport, q.writer, q.involved) then GateReport
    else if !SoundFor(GateCommand, q.writer, q.involved) then GateCommand
    else GateJob
  }

  // A record the store yields for a query outside that region although it does not match.
  function FalseHit(q: TableQuery): Body {
    var zeroTime := Timestamp(0, 0);
    match UnsoundType(q)
    case GateReport => Body(if q.writer.Some? then q.writer.value else Other(ZERO_ID), 0, zeroTime, ReportData(Open))
    case GateCommand =>
      var gate := if q.writer.Some? then q.writer.value else Other(ZERO_ID);
      Body(Other(if q.writer.Some? then gate else ZERO_ID), 0, zeroTime, CommandData(gate, Open))
    case _ =>
      var gate := if q.writer.Some? then q.writer.value else ZERO_ID;
      Body(Other(gate), 0, zeroTime, JobData(gate, Open, if q.involved.Some? then q.involved.value else ZERO_ID))
  }

  lemma SoundRegionIsSound(b: Body, q: TableQuery)
    requires YieldsOnlyMatches(q) && KeyMatches(b, q)
    ensures RecordMatches(b, q)
  {
  }

  lemma FalseHitIsFalse(q: TableQuery)
    requires !YieldsOnlyMatches(q)
    ensures KeyMatches(FalseHit(q), q) && !RecordMatches(FalseHit(q), q)
  {
  }

  // The store yields only records that match the query directly if and only if the query lies
  // in this region.
  lemma {:induction false} StoreQueryIsSoundIff(q: TableQuery)
    ensures (forall b: Body :: Matches(KeyOf(b), Compile(q)) ==> RecordMatches(b, q)) <==> YieldsOnlyMatches(q)
  {
    if YieldsOnlyMatches(q) {
      forall b: Body | Matches(KeyOf(b), Compile(q)) ensures RecordMatches(b, q) {
        CompiledMeaning(b, q);
        SoundRegionIsSound(b, q);
      }
    } else {
      CompiledMeaning(FalseHit(q), q);
      FalseHitIsFalse(q);
    }
  }

  // The places of an involved id that its key records.
  predicate Listed(b: Body, id: NodeId) {
    match b.data
    case ObservationData(gate, _) => gate == id
    case GateEncounterData(gate, _, _) => gate == id
    case MateEncounterData(mate, _) => mate == id
    case JobData(_, _, device) => device == id
    case _ => false
  }

  // With a nonzero involved id and no writer filter the store yields only matching records, and
  // it misses exactly those that involve the id solely as writer, command gate or job gate.
  lemma InvolvedQueryIsSoundAndMisses(b: Body, q: TableQuery)
    requires q.involved.Some? && q.involved.value != ZERO_ID && q.writer.None?
    ensures Matches(KeyOf(b), Compile(q)) ==> RecordMatches(b, q)
    ensures RecordMatches(b, q) && !Matches(KeyOf(b), Compile(q)) <==>
            && (q.recordType.Some? ==> TypeOf(b.data) == q.recordType.value)
            && !Listed(b, q.involved.value)
            && (b.writer == q.involved.value
                || (b.data.CommandData? && b.data.gate == q.involved.value)
                || (b.data.JobData? && b.data.gate == q.involved.value))
  {
    CompiledMeaning(b, q);
  }

  // A zero involved id matches every key with an unused second place, so the store also yields
  // records that do not involve it.
  lemma ZeroInvolvedIdIsUnsound()
    ensures
      var q := TableQuery(Some(GateCommand), None, Some(ZERO_ID));
      var b := Body([0, 0, 1, 1], 1, Timestamp(1, 0), CommandData([0, 0, 0, 7], Open));
      Matches(KeyOf(b), Compile(q)) && !RecordMatches(b, q)
  {
    var q := TableQuery(Some(GateCommand), None, Some(ZERO_ID));
    var b := Body([0, 0, 1, 1], 1, Timestamp(1, 0), CommandData([0, 0, 0, 7], Open));
    CompiledMeaning(b, q);
    var writer, gate: seq<byte> := [0, 0, 1, 1], [0, 0, 0, 7];
    assert writer[2] != ZERO_ID[2] && gate[3] != ZERO_ID[3];
  }
}
