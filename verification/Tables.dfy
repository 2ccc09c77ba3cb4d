// The replicated table on one node: creating own records and merging received ones.
module Tables {
  import opened Types
  import opened Keys
  import opened Store
  import opened Hlc
  import opened Crypto
  import Query
  import opened Sequences

  // ---------------------------------------------------------------- the rules as functions

  // What the table context means: the node, its sequence counter, its clock, and one record per
  // header key.
  datatype Tab = Tab(self: NodeId, sequence: u64, clock: Clock, table: map<Key, Record>)

  // Sequence first, timestamp second.
  predicate Newer(a: Body, b: Body) {
    a.sequence > b.sequence || (a.sequence == b.sequence && Less(b.timestamp, a.timestamp))
  }

  lemma NewerIsStrictOrder(a: Body, b: Body, c: Body)
    ensures !Newer(a, a)
    ensures Newer(a, b) && Newer(b, c) ==> Newer(a, c)
    ensures Newer(a, b) || Newer(b, a) || (a.sequence == b.sequence && a.timestamp == b.timestamp)
  {
  }

  // A record replaces what is stored under its key only if it is strictly newer.
  predicate Supersedes(t: map<Key, Record>, r: Record) {
    KeyOf(r.body) !in t || Newer(r.body, t[KeyOf(r.body)].body)
  }

  datatype MergeFlags = MergeFlags(updated: bool, isNew: bool, rejectedSig: bool, invalidRecord: bool)

  datatype MergeOutcome = MergeOutcome(result: int, flags: MergeFlags, tab: Tab)

  const NO_FLAGS := MergeFlags(false, false, false, false)

  function Merge(t: Tab, time: Option<u32>, verified: bool, r: Record): MergeOutcome {
    if IsEncounter(r.Type()) || !Supersedes(t.table, r) then
      MergeOutcome(-1, NO_FLAGS, t)
    else
      var isNew := KeyOf(r.body) !in t.table;
      if !verified then
        MergeOutcome(-1, MergeFlags(false, isNew, true, false), t)
      else if time.None? then
        MergeOutcome(-1, MergeFlags(!isNew, isNew, false, false), t)
      else
        MergeOutcome(0, MergeFlags(!isNew, isNew, false, false),
                     t.(clock := Receive(t.clock, time.value, r.body.timestamp),
                     table := t.table[KeyOf(r.body) := r]))
  }

  // What a merge reports, and when it takes a record over; an encounter is refused.
  lemma {:induction false} MergeReports(t: Tab, time: Option<u32>, verified: bool, r: Record)
    ensures
      var outcome, k := Merge(t, time, verified, r), KeyOf(r.body);
      if IsEncounter(r.Type()) then outcome == MergeOutcome(-1, MergeFlags(false, false, false, false), t)
      else
        var newer := k in t.table && Newer(r.body, t.table[k].body);
        && (outcome.flags.isNew <==> k !in t.table) && (outcome.flags.updated <==> verified && newer)
        && (outcome.flags.rejectedSig <==> (k !in t.table || newer) && !verified) && !outcome.flags.invalidRecord
        && outcome.result == (if (k !in t.table || newer) && verified && time.Some? then 0 else -1)
        && outcome.tab == (if outcome.result == 0 then
                             t.(clock := Receive(t.clock, time.value, r.body.timestamp), table := t.table[k := r])
                           else t)
  {
    hide KeyOf, Receive;
  }

  // The sequence number is drawn before the clock is read.
  function Create(t: Tab, raw: u32): Tab {
    t.(sequence := (t.sequence + 1) % U64, clock := Issue(t.clock, raw))
  }

  function NewBody(t: Tab, raw: u32, data: RecordData): Body {
    var t' := Create(t, raw);
    Body(t.self, t'.sequence, t'.clock.local, data)
  }

  datatype PutOutcome = PutOutcome(result: int, tab: Tab)

  function Put(t: Tab, time: Option<u32>, data: RecordData, signature: Option<seq<byte>>): PutOutcome {
    if time.None? then
      PutOutcome(-1, t.(sequence := (t.sequence + 1) % U64))
    else
      var t' := Create(t, time.value);
      if signature.None? then
        PutOutcome(-1, t')
      else
        var body := NewBody(t, time.value, data);
        PutOutcome(0, t'.(table := t.table[KeyOf(body) := Record(body, signature)]))
  }

  // What a put does to the counters and the table.
  lemma {:induction false} PutReports(t: Tab, time: Option<u32>, data: RecordData, signature: Option<seq<byte>>)
    ensures
      var outcome := Put(t, time, data, signature);
      && outcome.result == (if time.Some? && signature.Some? then 0 else -1)
      && outcome.tab.self == t.self && outcome.tab.sequence == (t.sequence + 1) % U64
      && outcome.tab.clock == (if time.Some? then Issue(t.clock, time.value) else t.clock)
      && outcome.tab.table == if outcome.result != 0 then t.table else
                              var body := Body(t.self, (t.sequence + 1) % U64, Issue(t.clock, time.value).local, data);
                              t.table[KeyOf(body) := Record(body, signature)]
  {
    hide KeyOf, Issue;
  }

  // The next record of a node is newer than everything numbered so far exactly when the 64-bit
  // counter does not wrap.
  lemma NextRecordIsNewestIff(t: Tab, raw: u32, data: RecordData)
    ensures (forall b: Body :: b.sequence <= t.sequence ==> Newer(NewBody(t, raw, data), b)) <==> t.sequence + 1 < U64
  {
    var next := NewBody(t, raw, data);
    if t.sequence + 1 == U64 {
      assert next.sequence == 0 && !Newer(next, next);
    }
  }

  // ---------------------------------------------------------------- four blobs are one record

  function SignatureLength(r: Record): nat {
    if r.signature.Some? then |r.signature.value| else 0
  }

  function HeaderOf(b: Body): Blob {
    HeaderBlob(TypeOf(b.data), b.writer, b.sequence, b.timestamp)
  }

  ghost predicate Holds(kv: map<seq<byte>, Blob>, key: Key, r: Record) {
    && key == KeyOf(r.body)
    && key in kv && kv[key] == HeaderOf(r.body)
    && WithKind(key, DataKind) in kv && kv[WithKind(key, DataKind)] == DataBlob(r.body.data)
    && WithKind(key, SignatureLengthKind) in kv
    && kv[WithKind(key, SignatureLengthKind)] == LengthBlob(SignatureLength(r))
    && (SignatureLength(r) > 0 ==>
          && WithKind(key, SignatureKind) in kv
          && kv[WithKind(key, SignatureKind)] == SignatureBlob(r.signature.value))
  }

  // The store content stands for the table: every record is held in full under its four keys,
  // and every header key belongs to a record.
  ghost predicate Represents(kv: map<seq<byte>, Blob>, table: map<Key, Record>) {
    && (forall k: Key :: k in table ==> IsHeaderKey(k) && Holds(kv, k, table[k]))
    && (forall k :: k in kv ==> |k| == 10)
    && (forall k: Key :: k in kv && IsHeaderKey(k) ==> k in table)
  }

  // The store after the four writes of a record; an absent signature is not written.
  function WriteParts(kv: map<seq<byte>, Blob>, r: Record): map<seq<byte>, Blob> {
    var k := KeyOf(r.body);
    var kv1 := kv[WithKind(k, HeaderKind) := HeaderOf(r.body)];
    var kv2 := kv1[WithKind(k, DataKind) := DataBlob(r.body.data)];
    var kv3 := kv2[WithKind(k, SignatureLengthKind) := LengthBlob(SignatureLength(r))];
    if SignatureLength(r) > 0 then kv3[WithKind(k, SignatureKind) := SignatureBlob(r.signature.value)] else kv3
  }

  // The order in which the parts of a record are written and read.
  const PARTS: seq<KeyKind> := [HeaderKind, DataKind, SignatureLengthKind, SignatureKind]

  function PartCount(r: Record): nat {
    if SignatureLength(r) > 0 then 4 else 3
  }

  function PartOf(r: Record, i: nat): Blob
    requires i < PartCount(r)
  {
    if i == 0 then HeaderOf(r.body)
    else if i == 1 then DataBlob(r.body.data)
    else if i == 2 then LengthBlob(SignatureLength(r))
    else SignatureBlob(r.signature.value)
  }

  type Content = map<seq<byte>, Blob>

  function WritePart(kv: Content, r: Record, i: nat): Content
    requires i < PartCount(r)
  {
    kv[WithKind(KeyOf(r.body), PARTS[i]) := PartOf(r, i)]
  }

  // The store after the first n of the writes of a record.
  function Written(kv: Content, r: Record, n: nat): Content
    requires n <= PartCount(r)
  {
    if n == 0 then kv else WritePart(Written(kv, r, n - 1), r, n - 1)
  }

  lemma FirstParts(kv: Content, r: Record)
    ensures
      var k := KeyOf(r.body);
      var kv1 := kv[WithKind(k, HeaderKind) := HeaderOf(r.body)];
      var kv2 := kv1[WithKind(k, DataKind) := DataBlob(r.body.data)];
      && Written(kv, r, 0) == kv && Written(kv, r, 1) == kv1 && Written(kv, r, 2) == kv2
      && Written(kv, r, 3) == kv2[WithKind(k, SignatureLengthKind) := LengthBlob(SignatureLength(r))]
  {
    hide WithKind, KeyOf, HeaderOf;
    assert Written(kv, r, 1) == WritePart(Written(kv, r, 0), r, 0);
    assert Written(kv, r, 2) == WritePart(Written(kv, r, 1), r, 1);
    assert Written(kv, r, 3) == WritePart(Written(kv, r, 2), r, 2);
  }

  // All of them together.
  lemma WrittenIsWriteParts(kv: Content, r: Record)
    ensures Written(kv, r, PartCount(r)) == WriteParts(kv, r)
  {
    hide WithKind, KeyOf, HeaderOf;
    FirstParts(kv, r);
  }

  lemma WritePartsHolds(kv: map<seq<byte>, Blob>, r: Record)
    ensures Holds(WriteParts(kv, r), KeyOf(r.body), r)
  {
    var k := KeyOf(r.body);
    KindsAreDisjoint(k, k, HeaderKind, HeaderKind);
    forall i, j ensures WithKind(k, i) == WithKind(k, j) <==> i == j {
      KindsAreDisjoint(k, k, i, j);
    }
  }

  lemma WritePartsKeepsOthers(kv: map<seq<byte>, Blob>, r: Record, key: Key, kind: KeyKind)
    requires IsHeaderKey(key) && key != KeyOf(r.body)
    ensures var x := WithKind(key, kind); var kv' := WriteParts(kv, r);
                                          (x in kv' <==> x in kv) && (x in kv ==> kv'[x] == kv[x])
  {
    forall i ensures WithKind(key, kind) != WithKind(KeyOf(r.body), i) {
      KindsAreDisjoint(key, KeyOf(r.body), kind, i);
    }
  }

  // Writing the four parts of a record replaces exactly that record.
  lemma FourWritesAreOneUpdate(kv: map<seq<byte>, Blob>, table: map<Key, Record>, r: Record)
    requires Represents(kv, table)
    ensures Represents(WriteParts(kv, r), table[KeyOf(r.body) := r])
  {
    var k := KeyOf(r.body);
    var kv' := WriteParts(kv, r);
    var table' := table[k := r];
    forall key: Key | key in table' ensures IsHeaderKey(key) && Holds(kv', key, table'[key]) {
      if key == k {
        WritePartsHolds(kv, r);
      } else {
        KindsAreDisjoint(key, key, HeaderKind, HeaderKind);
        forall kind ensures var x := WithKind(key, kind); (x in kv' <==> x in kv) && (x in kv ==> kv'[x] == kv[x]) {
          WritePartsKeepsOthers(kv, r, key, kind);
        }
      }
    }
    forall key: Key | key in kv' && IsHeaderKey(key) ensures key in table' {
      forall i ensures IsHeaderKey(WithKind(k, i)) <==> i == HeaderKind {
        KindsAreDisjoint(k, k, i, i);
      }
      KindsAreDisjoint(k, k, HeaderKind, HeaderKind);
      assert key == k || key in kv;
    }
  }

  // Nothing else is stored: the parts determine the record up to an empty signature.
  lemma PartsDetermineTheTable(kv: map<seq<byte>, Blob>, t: map<Key, Record>, t': map<Key, Record>)
    requires Represents(kv, t) && Represents(kv, t')
    ensures t.Keys == t'.Keys
    ensures forall k :: k in t ==> t[k].body == t'[k].body && SignatureLength(t[k]) == SignatureLength(t'[k])
    ensures forall k :: k in t && SignatureLength(t[k]) > 0 ==> t[k] == t'[k]
  {
    forall k: Key | k in t || k in t' ensures k in t && k in t' {
      assert Holds(kv, k, if k in t then t[k] else t'[k]);
    }
    forall k: Key | k in t
      ensures t[k].body == t'[k].body && SignatureLength(t[k]) == SignatureLength(t'[k])
      ensures SignatureLength(t[k]) > 0 ==> t[k] == t'[k]
    {
      assert Holds(kv, k, t[k]) && Holds(kv, k, t'[k]);
      if SignatureLength(t[k]) > 0 {
        var blob := kv[WithKind(k, SignatureKind)];
        assert t[k].signature == Some(blob.bytes) && t'[k].signature == Some(blob.bytes);
      }
    }
  }

  lemma KindsOfKey(k: Key)
    requires IsHeaderKey(k)
    ensures WithKind(k, HeaderKind) == k
    ensures forall i, j :: WithKind(WithKind(k, i), j) == WithKind(k, j)
  {
    forall i, j ensures WithKind(WithKind(k, i), j) == WithKind(k, j) {
      KindsAreDisjoint(k, k, i, j);
    }
    KindsAreDisjoint(k, k, HeaderKind, HeaderKind);
  }

  lemma KeyIsHeaderKey(b: Body)
    ensures WithKind(KeyOf(b), HeaderKind) == KeyOf(b)
  {
    KindsAreDisjoint(KeyOf(b), KeyOf(b), HeaderKind, HeaderKind);
  }

  // ---------------------------------------------------------------- the table context

  // A record as read back: the signature bytes are fetched only into a caller's buffer.
  datatype Retrieved = Retrieved(body: Body, signatureLength: nat, signature: Option<seq<byte>>)

  // A read of the record stored under a header key, with room for `capacity` signature bytes,
  // or without a signature buffer.
  function Retrieve(table: map<Key, Record>, key: seq<byte>, capacity: Option<nat>): Option<Retrieved> {
    if key !in table then None
    else
      var n := SignatureLength(table[key]);
      if capacity.Some? && n > capacity.value then None
      else Some(Retrieved(table[key].body, n, if capacity.Some? && n > 0 then table[key].signature else None))
  }

  // ---------------------------------------------------------------- subscribers

  // A subscriber to table events, told apart by `id`.
  datatype Memo = Memo(id: nat, query: Query.TableQuery)

  // Those whose query a record matches, in the order of subscription.
  function Subscribers(memos: seq<Memo>, b: Body): seq<Memo> {
    if memos == [] then []
    else
      var last := memos[|memos| - 1];
      Subscribers(memos[..|memos| - 1], b) + (if Query.RecordMatches(b, last.query) then [last] else [])
  }

  lemma {:induction false} SubscribersAreTheMatches(memos: seq<Memo>, b: Body)
    ensures forall m :: m in Subscribers(memos, b) <==> m in memos && Query.RecordMatches(b, m.query)
    decreases |memos|
  {
    if memos != [] {
      SubscribersAreTheMatches(memos[..|memos| - 1], b);
      assert memos == memos[..|memos| - 1] + [memos[|memos| - 1]];
    }
  }

  // Each is called once for every time it subscribed, and in the order of subscription.
  lemma {:induction false} SubscribersAreCalledOnce(memos: seq<Memo>, b: Body)
    ensures forall m ::
              multiset(Subscribers(memos, b))[m] ==
              if Query.RecordMatches(b, m.query) then multiset(memos)[m] else 0
    ensures InOrder(Subscribers(memos, b), memos)
    decreases |memos|
  {
    hide Query.RecordMatches, InOrder;
    if memos == [] {
      NothingIsInOrder(memos);
    } else {
      var front, last := memos[..|memos| - 1], memos[|memos| - 1];
      SubscribersAreCalledOnce(front, b);
      assert memos == front + [last];
      OneMoreInOrder(Subscribers(front, b), front, last);
      assert Subscribers(front, b) + [] == Subscribers(front, b);
    }
  }

  class TablesCtx {
    const selfId: NodeId
    var selfSequence: u64
    var memos: seq<Memo>
    const hlc: HlcCtx
    const store: KvStore
    const crypto: CoseService
    ghost var table: map<Key, Record>

    ghost predicate Valid()
      reads this, store, crypto, crypto.credentials
    {
      Represents(store.kv, table) && crypto.Valid()
    }

    ghost function View(): Tab
      reads this, hlc
    {
      Tab(selfId, selfSequence, hlc.View(), table)
    }

    constructor (self: NodeId, store: KvStore, crypto: CoseService, hlc: HlcCtx)
      requires store.kv == map[] && crypto.Valid()
      ensures Valid() && this.hlc == hlc && this.store == store && this.crypto == crypto
      ensures View() == Tab(self, 0, hlc.View(), map[]) && memos == []
    {
      this.selfId, this.selfSequence, this.memos := self, 0, [];
      this.hlc, this.store, this.crypto := hlc, store, crypto;
      this.table := map[];
    }

    method AddMemo(memo: Memo)
      modifies this`memos
      ensures memos == old(memos) + [memo]
    {
      memos := memos + [memo];
    }

    // Removes the first memo with this id.
    method RemoveMemo(id: nat) returns (result: int)
      modifies this`memos
      ensures result == -1 ==> memos == old(memos) && forall m :: m in memos ==> m.id != id
      ensures result != -1 ==>
                && result == 0
                && exists i :: 0 <= i < |old(memos)| && old(memos)[i].id == id
                               && (forall j :: 0 <= j < i ==> old(memos)[j].id != id)
                               && memos == old(memos)[..i] + old(memos)[i + 1..]
    {
      var i := 0;
      while i < |memos|
        invariant 0 <= i <= |memos| && memos == old(memos)
        invariant forall j :: 0 <= j < i ==> memos[j].id != id
      {
        if memos[i].id == id {
          memos := memos[..i] + memos[i + 1..];
          return 0;
        }
        i := i + 1;
      }
      return -1;
    }

    // Calls every subscriber whose query the record matches.
    method CheckAndCallMemos(b: Body) returns (called: seq<Memo>)
      ensures called == Subscribers(memos, b)
      ensures forall m :: multiset(called)[m] == if Query.RecordMatches(b, m.query) then multiset(memos)[m] else 0
      ensures InOrder(called, memos)
    {
      SubscribersAreCalledOnce(memos, b);
      hide InOrder;
      called := [];
      var i := 0;
      while i < |memos|
        invariant 0 <= i <= |memos|
        invariant called == Subscribers(memos[..i], b)
      {
        assert memos[..i + 1][..i] == memos[..i];
        if Query.RecordMatches(b, memos[i].query) {
          called := called + [memos[i]];
        }
        i := i + 1;
      }
      assert memos[..i] == memos;
    }

    // `accepted` is how many of the writes the database takes before it refuses one. The parts
    // written until then stay.
    method PutRecordInStore(record: Record, key: array<byte>, accepted: nat) returns (result: int)
      requires key.Length == 10 && key[..] == KeyOf(record.body)
      modifies this`table, store, key
      ensures result == if accepted >= PartCount(record) then 0 else -1
      ensures store.kv == Written(old(store.kv), record, if result == 0 then PartCount(record) else accepted)
      ensures table == if result == 0 then old(table)[KeyOf(record.body) := record] else old(table)
      ensures result == 0 && old(Represents(store.kv, table)) ==> Represents(store.kv, table)
    {
      ghost var kv, k := store.kv, KeyOf(record.body);
      FirstParts(kv, record);
      WrittenIsWriteParts(kv, record);
      hide Written;
      KindsOfKey(k);
      SelectKind(key, HeaderKind);
      result := store.Put(key[..], HeaderOf(record.body), accepted > 0);
      if result != 0 {
        return -1;
      }
      SelectKind(key, DataKind);
      result := store.Put(key[..], DataBlob(record.body.data), accepted > 1);
      if result != 0 {
        return -1;
      }
      SelectKind(key, SignatureLengthKind);
      result := store.Put(key[..], LengthBlob(SignatureLength(record)), accepted > 2);
      if result != 0 {
        return -1;
      }
      if SignatureLength(record) > 0 {
        SelectKind(key, SignatureKind);
        result := store.Put(key[..], SignatureBlob(record.signature.value), accepted > 3);
        if result != 0 {
          return -1;
        }
      }
      if Represents(kv, table) {
        FourWritesAreOneUpdate(kv, table, record);
      }
      table := table[k := record];
      return 0;
    }

    method GetRecordHeaderFromStore(key: array<byte>) returns (header: Option<Blob>)
      requires Valid() && key.Length == 10
      modifies key
      ensures key[..] == WithKind(old(key[..]), HeaderKind)
      ensures header == if key[..] in table then Some(HeaderOf(table[key[..]].body)) else None
    {
      SelectKind(key, HeaderKind);
      header := store.Get(key[..]);
    }

    method GetRecordFromStore(key: array<byte>, capacity: Option<nat>) returns (record: Option<Retrieved>)
      requires Valid() && key.Length == 10
      modifies key
      ensures record == Retrieve(table, WithKind(old(key[..]), HeaderKind), capacity)
    {
      ghost var k := WithKind(key[..], HeaderKind);
      forall i, j ensures WithKind(WithKind(k, i), j) == WithKind(k, j) {
        KindsAreDisjoint(k, k, i, j);
      }
      SelectKind(key, HeaderKind);
      var header := store.Get(key[..]);
      if header.None? {
        return None;
      }
      SelectKind(key, DataKind);
      var data := store.Get(key[..]);
      if data.None? {
        return None;
      }
      SelectKind(key, SignatureLengthKind);
      var length := store.Get(key[..]);
      if length.None? || (capacity.Some? && length.value.length > capacity.value) {
        return None;
      }
      var body := Body(header.value.writer, header.value.sequence, header.value.timestamp, data.value.data);
      if capacity.Some? && length.value.length > 0 {
        SelectKind(key, SignatureKind);
        var signature := store.Get(key[..]);
        if signature.None? {
          return None;
        }
        return Some(Retrieved(body, length.value.length, Some(signature.value.bytes)));
      }
      return Some(Retrieved(body, length.value.length, None));
    }

    method VerifyRecord(record: Record) returns (result: int)
      requires Valid()
      ensures result == if RecordVerifies(crypto.kidOf, crypto.issued, crypto.credentials.publicKeys, record)
                        then 0 else -1
    {
      if record.signature.None? || |record.signature.value| <= 0 {
        return -1;
      }
      result := crypto.Verify(record.body.writer, RecordPayload(record.body), record.signature.value);
    }

    // The shared course of the four functions that store a record of the node's own: key,
    // sequence and timestamp, the size of the signature, the signature, store, subscribers.
    // `time` is the clock callback's answer, `encoded` the COSE library's, `accepted` the number
    // of store writes before one fails. If one does, the put fails with the counters advanced, the
    // signature made, and a part of the record left in the store.
    method PutOwnRecord(data: RecordData, time: Option<u32>, encoded: Option<seq<byte>>, accepted: nat)
      returns (result: int, called: seq<Memo>)
      requires Valid() && WriterKeyed(TypeOf(data))
      requires encoded.Some? ==> crypto.kidOf(encoded.value) == Some(selfId)
      modifies this`selfSequence, this`table, hlc, store, crypto
      ensures crypto.Valid()
      ensures selfSequence == (old(selfSequence) + 1) % U64
      ensures hlc.View() == if time.Some? then Issue(old(hlc.View()), time.value) else old(hlc.View())
      ensures
        var record := Record(Body(selfId, selfSequence, hlc.View().local, data), encoded);
        var made := && time.Some? && encoded.Some? && encoded.value != []
                    && selfId in crypto.credentials.privateKeys && selfId in crypto.credentials.publicKeys;
        && result == (if made && accepted >= PartCount(record) then 0 else -1)
        && called == (if result == 0 then Subscribers(memos, record.body) else [])
        && table == (if result == 0 then old(table)[KeyOf(record.body) := record] else old(table))
        && store.kv == (if made then
                          Written(old(store.kv), record, if result == 0 then PartCount(record) else accepted)
                        else old(store.kv))
        && crypto.issued == if made then
                              old(crypto.issued)
                              + {Signature(crypto.credentials.publicKeys[selfId], RecordPayload(record.body),
                                           encoded.value)}
                            else old(crypto.issued)
      ensures result == 0 || store.kv == old(store.kv) ==> Valid()
    {
      hide Represents, KeyOf, Issue, Subscribers, Written, InOrder;
      called := [];
      var key := new byte[10];
      selfSequence := (selfSequence + 1) % U64;
      var clock, timestamp := hlc.GetCurrentTimestamp(time);
      if clock != 0 {
        return -1, called;
      }
      var body := Body(selfId, selfSequence, timestamp.value, data);
      var signing, size, signature := crypto.Sign(selfId, RecordPayload(body), encoded, None);
      if signing != 0 {
        return -1, called;
      }
      signing, size, signature := crypto.Sign(selfId, RecordPayload(body), encoded, size);
      if signing != 0 {
        return -1, called;
      }
      GetRecordKey(body, key);
      result := PutRecordInStore(Record(body, signature), key, accepted);
      if result < 0 {
        return result, called;
      }
      called := CheckAndCallMemos(body);
    }

    // A record is taken over if it is the first under its key or newer, verifies, and the clock can
    // be read. If a store write fails then, the merge fails with the clock advanced, a part of the
    // record left in the store, and the subscribers called all the same.
    method MergeRecord(record: Record, time: Option<u32>, accepted: nat)
      returns (result: int, flags: MergeFlags, called: seq<Memo>)
      requires Valid()
      modifies this`table, hlc, store
      ensures crypto.Valid()
      ensures IsEncounter(record.Type()) ==>
                && result == -1 && flags == MergeFlags(false, false, false, false) && called == []
                && View() == old(View()) && store.kv == old(store.kv)
      ensures !IsEncounter(record.Type()) ==>
                var k := KeyOf(record.body);
                var newer := k in old(table) && Newer(record.body, old(table)[k].body);
                var verified := RecordVerifies(crypto.kidOf, crypto.issued, crypto.credentials.publicKeys, record);
                var taken := (k !in old(table) || newer) && verified && time.Some?;
                && flags == MergeFlags(verified && newer, k !in old(table),
                                       (k !in old(table) || newer) && !verified, false)
                && result == (if taken && accepted >= PartCount(record) then 0 else -1)
                && called == (if taken then Subscribers(memos, record.body) else [])
                && View() == old(View()).(
                             clock := if taken then Receive(old(hlc.View()), time.value, record.body.timestamp)
                             else old(hlc.View()),
                                  table := if result == 0 then old(table)[k := record] else old(table))
                && store.kv == if taken then
                                 Written(old(store.kv), record, if result == 0 then PartCount(record) else accepted)
                               else old(store.kv)
      ensures result == 0 || store.kv == old(store.kv) ==> Valid()
    {
      hide Represents, KeyOf, Receive, RecordVerifies, Less, Subscribers, Written, InOrder;
      flags, called := NO_FLAGS, [];
      if record.Type() == GateEncounter || record.Type() == MateEncounter {
        return -1, flags, called;
      }
      var key := new byte[10];
      GetRecordKey(record.body, key);
      KeyIsHeaderKey(record.body);
      var merge := false;
      var inStore := GetRecordHeaderFromStore(key);
      if inStore.None? {
        merge := true;
        flags := flags.(isNew := true);
      }
      if !flags.isNew {
        if record.body.sequence > inStore.value.sequence {
          merge := true;
        } else if record.body.sequence == inStore.value.sequence {
          var order := Compare(record.body.timestamp, inStore.value.timestamp);
          merge := order > 0;
        } else {
          merge := false;
        }
      }
      if merge {
        var verification := VerifyRecord(record);
        if verification != 0 {
          flags := flags.(rejectedSig := true);
          return -1, flags, called;
        }
        if !flags.isNew {
          flags := flags.(updated := true);
        }
        var clock, timestamp := hlc.UpdateWithRemoteTimestamp(time, record.body.timestamp);
        if clock != 0 {
          return -1, flags, called;
        }
        result := PutRecordInStore(record, key, accepted);
        called := CheckAndCallMemos(record.body);
        return result, flags, called;
      }
      return -1, flags, called;
    }
  }
}
