// Shared vocabulary of the firmware model: machine integers, node ids, timestamps and records.
module Types {

  const U32: int := 0x1_0000_0000
  const U64: int := 0x1_0000_0000_0000_0000

  type byte = b: int | 0 <= b < 256
  type u32 = n: int | 0 <= n < U32
  type u64 = n: int | 0 <= n < U64

  const NODE_ID_SIZE: nat := 4
  type NodeId = s: seq<byte> | |s| == 4 witness [0, 0, 0, 0]
  const ZERO_ID: NodeId := [0, 0, 0, 0]

  datatype Option<+T> = None | Some(value: T)

  datatype Timestamp = Timestamp(physical: u32, logical: u32)

  datatype GateState = Open | Closed | Unknown | DontCare

  datatype RecordType =
    | GateReport
    | GateObservation
    | GateEncounter
    | MateEncounter
    | GateCommand
    | GateJob

  // The type-specific part of a record.
  datatype RecordData =
    | ReportData(state: GateState)
    | ObservationData(gate: NodeId, state: GateState)
    | GateEncounterData(gate: NodeId, state: GateState, rssi: int)
    | MateEncounterData(mate: NodeId, rssi: int)
    | CommandData(gate: NodeId, state: GateState)
    | JobData(gate: NodeId, state: GateState, device: NodeId)

  function TypeOf(d: RecordData): RecordType {
    match d
    case ReportData(_) => GateReport
    case ObservationData(_, _) => GateObservation
    case GateEncounterData(_, _, _) => GateEncounter
    case MateEncounterData(_, _) => MateEncounter
    case CommandData(_, _) => GateCommand
    case JobData(_, _, _) => GateJob
  }

  // What a signature covers: the header (whose type field is TypeOf(data)) followed by the data.
  datatype Body = Body(writer: NodeId, sequence: u64, timestamp: Timestamp, data: RecordData)

  // A record with its signature; None where it is NULL.
  datatype Record = Record(body: Body, signature: Option<seq<byte>>) {
    function Type(): RecordType {
      TypeOf(body.data)
    }
  }

  predicate IsEncounter(t: RecordType) {
    t == GateEncounter || t == MateEncounter
  }

  // The record types whose key contains the writer.
  predicate WriterKeyed(t: RecordType) {
    t == GateReport || t == GateObservation || IsEncounter(t)
  }
}
