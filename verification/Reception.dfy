// What a node does with record messages that arrive over BLE and over the LoRaWAN downlink.
module Reception {
  import opened Types
  import opened Keys
  import opened Tables
  import opened Crypto
  import opened Hlc
  import opened RecordCodec

  datatype Handled = Handled(result: int, flags: MergeFlags, tab: Tab)

  // A BLE record message: decoded with an 80-byte signature buffer, ignored if this node is the
  // writer, merged otherwise. A failed merge still counts as handled.
  function Hear(t: Tab, time: Option<u32>, kidOf: KidReader, issued: set<Signature>,
                keys: KeyRing, message: seq<byte>): Handled
  {
    match DecodeRecord(message, Some(MAX_SIGNATURE_SIZE))
    case None => Handled(-1, NO_FLAGS, t)
    case Some(decoded) =>
      var r := decoded.record;
      if r.body.writer == t.self then Handled(-1, NO_FLAGS, t)
      else
        var outcome := Merge(t, time, RecordVerifies(kidOf, issued, keys, r), r);
        Handled(0, outcome.flags, outcome.tab)
  }

  lemma HearReports(t: Tab, time: Option<u32>, kidOf: KidReader, issued: set<Signature>, keys: KeyRing,
                    message: seq<byte>)
    ensures
      var handled := Hear(t, time, kidOf, issued, keys, message);
      var decoded := DecodeRecord(message, Some(80));
      if decoded.None? || decoded.value.record.body.writer == t.self then
        handled == Handled(-1, MergeFlags(false, false, false, false), t)
      else
        var r := decoded.value.record;
        var k := KeyOf(r.body);
        var newer := k in t.table && Newer(r.body, t.table[k].body);
        var verified := RecordVerifies(kidOf, issued, keys, r);
        && handled.result == 0
        && handled.flags ==
           MergeFlags(verified && newer, k !in t.table, (k !in t.table || newer) && !verified, false)
        && handled.tab ==
           if (k !in t.table || newer) && verified && time.Some? then
             t.(clock := Receive(t.clock, time.value, r.body.timestamp), table := t.table[k := r])
           else t
  {
    hide DecodeRecord, RecordVerifies, Receive, KeyOf, Merge;
    HeardRecordsAreBounded(message);
    var decoded := DecodeRecord(message, Some(80));
    if decoded.Some? {
      var r := decoded.value.record;
      MergeReports(t, time, RecordVerifies(kidOf, issued, keys, r), r);
    }
  }

  // What the radio knows about the mate that broadcast a message: the number in its device name
  // and the strength of the signal.
  datatype Sender = Sender(number: byte, rssi: int)

  // What a handheld tells its user interface.
  datatype Event = NoEvent | BleNews | BleReceived

  // Decodes a message and merges its record, unless this node is the writer. `merged` is the result
  // of the merge, if it comes to that.
  method MergeMessage(ctx: TablesCtx, message: seq<byte>, time: Option<u32>)
    returns (merged: Option<int>, flags: MergeFlags)
    requires ctx.Valid()
    modifies ctx`table, ctx.hlc, ctx.store
    ensures ctx.Valid()
    ensures
      var handled := Hear(old(ctx.View()), time, ctx.crypto.kidOf, ctx.crypto.issued,
                          ctx.crypto.credentials.publicKeys, message);
      handled.result == (if merged.Some? then 0 else -1) && flags == handled.flags && ctx.View() == handled.tab
    ensures
      var t, decoded := old(ctx.View()), DecodeRecord(message, Some(80));
      if decoded.None? || decoded.value.record.body.writer == t.self then merged == None
      else
        var r := decoded.value.record;
        var news := KeyOf(r.body) !in t.table || Newer(r.body, t.table[KeyOf(r.body)].body);
        var verified := RecordVerifies(ctx.crypto.kidOf, ctx.crypto.issued, ctx.crypto.credentials.publicKeys, r);
        merged == Some(if news && verified && time.Some? then 0 else -1)
  {
    HearReports(ctx.View(), time, ctx.crypto.kidOf, ctx.crypto.issued, ctx.crypto.credentials.publicKeys, message);
    HeardRecordsAreBounded(message);
    hide Hear, DecodeRecord, RecordVerifies, Receive, Newer, Subscribers, Written, Represents, KeyOf;
    flags := NO_FLAGS;
    var decoded := DeserializeRecord(message, Some(MAX_SIGNATURE_SIZE));
    if decoded.None? {
      return None, flags;
    }
    var record := decoded.value.record;
    if record.body.writer == ctx.selfId {
      return None, flags;
    }
    var result, called;
    result, flags, called := ctx.MergeRecord(record, time, |PARTS|);
    merged := Some(result);
  }

  // Puts the encounter with a mate; a failure is not reported.
  method NoteEncounter(ctx: TablesCtx, sender: Option<Sender>, time: Option<u32>, encoded: Option<seq<byte>>)
    requires ctx.Valid()
    requires encoded.Some? ==> ctx.crypto.kidOf(encoded.value) == Some(ctx.selfId)
    modifies ctx`selfSequence, ctx`table, ctx.hlc, ctx.store, ctx.crypto
    ensures ctx.Valid()
    ensures ctx.View() == if sender.None? then old(ctx.View()) else
                          WithEncounter(old(ctx.View()), time, sender.value,
                                        if ctx.selfId in ctx.crypto.credentials.privateKeys
                                           && ctx.selfId in ctx.crypto.credentials.publicKeys then encoded else None)
  {
    hide Issue, Subscribers, Written, Represents, KeyOf;
    if sender.Some? {
      var mate: NodeId := [0, 0, 1, sender.value.number];
      var result, called := ctx.PutOwnRecord(MateEncounterData(mate, sender.value.rssi), time, encoded, |PARTS|);
    }
  }

  // The table context after a node noted that it heard a mate.
  function WithEncounter(t: Tab, time: Option<u32>, sender: Sender, signature: Option<seq<byte>>): Tab {
    var signed := if signature == Some([]) then None else signature;
    Put(t, time, MateEncounterData([0, 0, 1, sender.number], sender.rssi), signed).tab
  }

  // It draws a number, stamps and, if it can sign, files the encounter under its own key.
  lemma EncounterIsNoted(t: Tab, time: Option<u32>, sender: Sender, signature: Option<seq<byte>>)
    ensures
      var after := WithEncounter(t, time, sender, signature);
      && after.self == t.self && after.sequence == (t.sequence + 1) % U64
      && after.clock == (if time.Some? then Issue(t.clock, time.value) else t.clock)
      && after.table ==
         if time.None? || signature.None? || signature.value == [] then t.table
         else
           var mate: NodeId := [0, 0, 1, sender.number];
           var body := Body(t.self, after.sequence, after.clock.local, MateEncounterData(mate, sender.rssi));
           t.table[[3, 1] + t.self + mate := Record(body, signature)]
  {
    hide Put, Issue;
    PutReports(t, time, MateEncounterData([0, 0, 1, sender.number], sender.rssi),
               if signature == Some([]) then None else signature);
  }

  // `isMate` tells a handheld from a gate; on a handheld `sender` is None for a message not sent by
  // another one. `time'` and `encoded` are the answers of the clock and the COSE library for the
  // encounter. A handheld notes the encounter with a mate that sends it the record of some third
  // party, if this record verifies or is no news.
  method HandleRecord(ctx: TablesCtx, message: seq<byte>, time: Option<u32>, isMate: bool, sender: Option<Sender>,
                      time': Option<u32>, encoded: Option<seq<byte>>)
    returns (result: int, flags: MergeFlags, event: Event)
    requires ctx.Valid()
    requires encoded.Some? ==> ctx.crypto.kidOf(encoded.value) == Some(ctx.selfId)
    modifies ctx`selfSequence, ctx`table, ctx.hlc, ctx.store, ctx.crypto
    ensures ctx.Valid()
    ensures
      var t, decoded := old(ctx.View()), DecodeRecord(message, Some(80));
      var handled := Hear(t, time, ctx.crypto.kidOf, old(ctx.crypto.issued),
                          old(ctx.crypto.credentials.publicKeys), message);
      && result == handled.result && flags == handled.flags
      && if decoded.None? || decoded.value.record.body.writer == t.self then
           event == NoEvent && ctx.View() == handled.tab
         else
           var r := decoded.value.record;
           var news := KeyOf(r.body) !in t.table || Newer(r.body, t.table[KeyOf(r.body)].body);
           var verified := RecordVerifies(ctx.crypto.kidOf, old(ctx.crypto.issued),
                                          old(ctx.crypto.credentials.publicKeys), r);
           var signs := && ctx.selfId in ctx.crypto.credentials.privateKeys
                        && ctx.selfId in ctx.crypto.credentials.publicKeys;
           && event == (if !isMate || (news && !verified) then NoEvent
                        else if news && time.Some? then BleNews else BleReceived)
           && ctx.View() == if isMate && sender.Some? && (verified || !news) then
                              WithEncounter(handled.tab, time', sender.value, if signs then encoded else None)
                            else handled.tab
  {
    HearReports(ctx.View(), time, ctx.crypto.kidOf, ctx.crypto.issued, ctx.crypto.credentials.publicKeys, message);
    hide Hear, DecodeRecord, RecordVerifies, Receive, Newer, Represents, KeyOf, WithEncounter;
    event := NoEvent;
    var merged;
    merged, flags := MergeMessage(ctx, message, time);
    if merged.None? {
      return -1, flags, event;
    }
    if merged.value == 0 && (flags.updated || flags.isNew) {
      if isMate {
        NoteEncounter(ctx, sender, time', encoded);
        event := BleNews;
      }
    } else if flags.rejectedSig || flags.invalidRecord {
    } else {
      if isMate {
        NoteEncounter(ctx, sender, time', encoded);
        event := BleReceived;
      }
    }
    return 0, flags, event;
  }

  // A downlink packet is decoded without a signature buffer and merged unconditionally.
  method HandleDownlink(ctx: TablesCtx, packet: seq<byte>, time: Option<u32>) returns (flags: MergeFlags)
    requires ctx.Valid()
    modifies ctx`table, ctx.hlc, ctx.store
    ensures ctx.Valid()
    ensures ctx.View() == old(ctx.View())
    ensures
      var decoded := DecodeRecord(packet, None);
      flags == if decoded.Some? && Supersedes(old(ctx.table), decoded.value.record)
      then MergeFlags(false, KeyOf(decoded.value.record.body) !in old(ctx.table), true, false)
      else NO_FLAGS
  {
    flags := NO_FLAGS;
    var decoded := DeserializeRecord(packet, None);
    if decoded.None? {
      return flags;
    }
    DownlinkNeverVerifies(packet);
    var result, called;
    hide DecodeRecord, RecordVerifies, Supersedes, KeyOf;
    result, flags, called := ctx.MergeRecord(decoded.value.record, time, |PARTS|);
  }

  // Decoding without a signature buffer leaves the signature NULL, so no downlink record
  // ever passes verification, whatever it carries and whoever signed it.
  lemma DownlinkNeverVerifies(packet: seq<byte>)
    ensures
      var decoded := DecodeRecord(packet, None);
      decoded.Some? ==>
        && decoded.value.record.signature.None?
        && !IsEncounter(decoded.value.record.Type())
        && forall kidOf, issued, keys :: !RecordVerifies(kidOf, issued, keys, decoded.value.record)
  {
  }

  // Nothing heard over BLE can be an encounter or carry a timestamp at the 32-bit limit.
  lemma HeardRecordsAreBounded(message: seq<byte>)
    ensures
      var decoded := DecodeRecord(message, Some(MAX_SIGNATURE_SIZE));
      decoded.Some? ==>
        && !IsEncounter(decoded.value.record.Type())
        && ClockFitsWire(decoded.value.record.body.timestamp)
        && decoded.value.record.signature.Some?
        && |decoded.value.record.signature.value| <= MAX_SIGNATURE_SIZE
  {
  }
}
