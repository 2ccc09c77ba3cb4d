// Iterating over the table with a query, and the pass that broadcasts every match.
module Gossip {
  import opened Types
  import opened Keys
  import opened Sequences
  import opened Store
  import opened Tables
  import opened Query
  import opened RecordCodec

  datatype IteratorState = IterInit | IterRun | IterDone | IterError

  function Rank(s: IteratorState): nat {
    match s
    case IterInit => 2
    case IterRun => 1
    case _ => 0
  }

  // Every key the store selects for a table query is the header key of a record in the table.
  lemma SelectedKeysAreRecords(kv: map<seq<byte>, Blob>, table: map<Key, Record>, order: seq<seq<byte>>, q: TableQuery)
    requires Represents(kv, table)
    requires forall k :: k in order ==> k in kv
    requires forall i, j :: 0 <= i < j < |order| ==> order[i] != order[j]
    ensures forall k: seq<byte> :: k in Selected(order, Compile(q)) ==> |k| == 10 && IsHeaderKey(k) && k in table
  {
    assert WellFormedQuery(Compile(q));
    hide Compile, Selected, Holds, Matches;
    SelectedIsExactlyTheMatches(order, Compile(q));
    forall k: seq<byte> | k in Selected(order, Compile(q)) ensures |k| == 10 && IsHeaderKey(k) && k in table {
      CompiledSelectsHeaderKeys(k, q);
    }
  }

  class TableIterator {
    const query: TableQuery
    const storeIterator: StoreIterator
    const searchKey: array<byte>
    const searchKeyMask: array<byte>
    var state: IteratorState

    ghost predicate Valid()
      reads this, storeIterator
    {
      && searchKey.Length == 10 && searchKeyMask.Length == 10 && searchKey != searchKeyMask
      && (state == IterRun ==> storeIterator.Valid() && storeIterator.query == Compile(query))
    }

    // The keys still to be visited.
    ghost function Pending(): seq<seq<byte>>
      requires Valid()
      reads this, storeIterator
    {
      match state
      case IterInit => Selected(storeIterator.order, Compile(query))
      case IterRun => storeIterator.Pending()
      case _ => []
    }

    constructor (query: TableQuery, order: seq<seq<byte>>)
      ensures Valid() && fresh(searchKey) && fresh(searchKeyMask) && fresh(storeIterator)
      ensures this.query == query && storeIterator.order == order && Pending() == Selected(order, Compile(query))
    {
      this.query, this.state := query, IterInit;
      this.searchKey := new byte[10](_ => 0);
      this.searchKeyMask := new byte[10](_ => 0);
      this.storeIterator := new StoreIterator(order);
    }

    // Fills the search key and its mask from the query and starts the store iteration.
    method InitStoreIterator()
      requires Valid()
      modifies searchKey, searchKeyMask, storeIterator
      ensures Valid() && storeIterator.Valid() && storeIterator.query == Compile(query)
      ensures storeIterator.Pending() == Selected(storeIterator.order, Compile(query))
    {
      hide Selected, Matches, WellFormedQuery;
      for i := 0 to TABLES_KEY_SIZE
        invariant forall j :: 0 <= j < i ==> searchKey[j] == 0 && searchKeyMask[j] == 0
      {
        searchKey[i], searchKeyMask[i] := 0, 0;
      }
      if query.recordType.Some? {
        SetByte(searchKey, 0, TypeCode(query.recordType.value));
        SetByte(searchKeyMask, 0, 255);
      }
      SelectKind(searchKey, HeaderKind);
      SetByte(searchKeyMask, 1, 255);
      assert searchKey[..] == TypePattern(query.recordType) + ZERO_ID + ZERO_ID;
      assert searchKeyMask[..] == TypeMask(query.recordType) + ZERO_ID + ZERO_ID;
      if query.writer.Some? {
        NodeIdToBytes(query.writer.value, searchKey, 2);
        NodeIdToBytes(FULL_MASK, searchKeyMask, 2);
      }
      assert searchKey[..] == TypePattern(query.recordType) + IdPattern(query.writer) + ZERO_ID;
      assert searchKeyMask[..] == TypeMask(query.recordType) + IdMask(query.writer) + ZERO_ID;
      if query.involved.Some? {
        NodeIdToBytes(query.involved.value, searchKey, 2 + NODE_ID_SIZE);
        NodeIdToBytes(FULL_MASK, searchKeyMask, 2 + NODE_ID_SIZE);
      }
      assert searchKey[..] == Compile(query).key;
      assert searchKeyMask[..] == Compile(query).mask.value;
      storeIterator.Init(StoreQuery(searchKey[..], Some(searchKeyMask[..])));
    }

    // The state loop. `capacity` is the room for a signature going in and the length of the
    // signature coming out; None for both stands for the null buffer. The first record that does
    // not fit ends the iteration for good.
    method Next(ctx: TablesCtx, capacity: Option<nat>) returns (record: Option<Retrieved>, length: Option<nat>)
      requires Valid() && ctx.Valid() && IsListing(storeIterator.order, ctx.store.kv)
      requires forall k: seq<byte> :: k in Pending() ==> |k| == 10 && IsHeaderKey(k)
      modifies this, storeIterator, searchKey, searchKeyMask
      ensures Valid() && ctx.Valid()
      ensures record == if old(Pending()) == [] then None else Retrieve(ctx.table, old(Pending())[0], capacity)
      ensures Pending() == if record.None? then [] else old(Pending())[1..]
      ensures length == if capacity.Some? && record.Some? then Some(record.value.signatureLength) else capacity
    {
      hide Represents, Selected, Compile, Retrieve, IsListing;
      ghost var pending := Pending();
      while true
        invariant Valid() && ctx.Valid()
        invariant Rank(state) > 0 ==> Pending() == pending
        invariant Rank(state) == 0 ==> pending == [] || Retrieve(ctx.table, pending[0], capacity).None?
        decreases Rank(state)
      {
        match state {
          case IterInit =>
            InitStoreIterator();
            state := IterRun;
          case IterRun =>
            var key := storeIterator.Next();
            if key.None? {
              state := IterDone;
            } else {
              assert pending[0] == key.value && key.value in pending;
              var buffer := new byte[10](i requires 0 <= i < 10 => key.value[i]);
              assert buffer[..] == key.value;
              KindsAreDisjoint(key.value, key.value, HeaderKind, HeaderKind);
              record := ctx.GetRecordFromStore(buffer, capacity);
              if record.None? {
                state := IterError;
              } else {
                length := if capacity.Some? then Some(record.value.signatureLength) else None;
                return;
              }
            }
          case _ =>
            return None, capacity;
        }
      }
    }
  }

  // ---------------------------------------------------------------- the broadcast pass

  function LengthAt(table: map<Key, Record>, key: seq<byte>): nat {
    if key in table then SignatureLength(table[key]) else 0
  }

  // The keys a pass gets to: each signature length becomes the room for the next signature.
  function Visited(keys: seq<seq<byte>>, table: map<Key, Record>, capacity: nat): seq<seq<byte>> {
    if keys == [] || keys[0] !in table || LengthAt(table, keys[0]) > capacity then []
    else [keys[0]] + Visited(keys[1..], table, LengthAt(table, keys[0]))
  }

  lemma VisitedStep(before: seq<seq<byte>>, keys: seq<seq<byte>>, table: map<Key, Record>, capacity: nat)
    requires keys != [] && keys[0] in table && LengthAt(table, keys[0]) <= capacity
    ensures before + Visited(keys, table, capacity) ==
            before + [keys[0]] + Visited(keys[1..], table, LengthAt(table, keys[0]))
  {
  }

  lemma VisitedEnds(keys: seq<seq<byte>>, table: map<Key, Record>, capacity: nat)
    requires keys == [] || Retrieve(table, keys[0], Some(capacity)) == None
    ensures Visited(keys, table, capacity) == []
  {
  }

  // The record as it is handed to the sender: with the signature buffer attached.
  function Outgoing(r: Retrieved): Record {
    Record(r.body, Some(if r.signature.Some? then r.signature.value else []))
  }

  // What is broadcast for a record: nothing if it cannot be serialized into the send buffer.
  function Message(r: Record): seq<seq<byte>> {
    if Serializable(r, true) && |EncodeRecord(r, true)| <= MAX_SERIALIZED_RECORD_SIZE then [EncodeRecord(r, true)]
    else []
  }

  // The record as stored, with an empty signature where there is none.
  function Stored(r: Record): Record {
    Record(r.body, Some(if SignatureLength(r) > 0 then r.signature.value else []))
  }

  function Messages(keys: seq<seq<byte>>, table: map<Key, Record>): seq<seq<byte>> {
    if keys == [] then []
    else
      var last := keys[|keys| - 1];
      Messages(keys[..|keys| - 1], table) + (if last in table then Message(Stored(table[last])) else [])
  }

  lemma MessagesOfNothing(table: map<Key, Record>)
    ensures Messages([], table) == []
  {
  }

  lemma MessagesAppend(keys: seq<seq<byte>>, table: map<Key, Record>, key: Key)
    requires key in table
    ensures Messages(keys + [key], table) == Messages(keys, table) + Message(Stored(table[key]))
  {
    assert (keys + [key])[..|keys + [key]| - 1] == keys;
  }

  // A record can be broadcast: it has a type and a state that can be written, and fits the buffer.
  predicate CanBroadcast(table: map<Key, Record>, key: seq<byte>) {
    && key in table && Serializable(Stored(table[key]), true)
    && |EncodeRecord(Stored(table[key]), true)| <= 128
  }

  predicate IsMessageOf(message: seq<byte>, table: map<Key, Record>, key: seq<byte>) {
    && key in table && Serializable(Stored(table[key]), true)
    && message == EncodeRecord(Stored(table[key]), true)
  }

  // What is sent for some keys: one message for each key whose record can be broadcast, in the
  // order of the keys, and nothing else. `from` are these keys.
  lemma {:induction false} OneMessageEach(keys: seq<seq<byte>>, table: map<Key, Record>) returns (from: seq<seq<byte>>)
    ensures InOrder(from, keys) && |from| == |Messages(keys, table)|
    ensures forall k :: multiset(from)[k] == if CanBroadcast(table, k) then multiset(keys)[k] else 0
    ensures forall i :: 0 <= i < |from| ==> IsMessageOf(Messages(keys, table)[i], table, from[i])
    decreases |keys|
  {
    hide InOrder, Stored, EncodeRecord, Serializable;
    from := [];
    if keys == [] {
      NothingIsInOrder(keys);
    } else {
      var front, last := keys[..|keys| - 1], keys[|keys| - 1];
      from := OneMessageEach(front, table);
      assert keys == front + [last];
      OneMoreInOrder(from, front, last);
      if CanBroadcast(table, last) {
        from := from + [last];
      }
    }
  }

  method SendRecord(r: Record) returns (sent: seq<seq<byte>>)
    ensures sent == Message(r)
  {
    var buffer := new byte[MAX_SERIALIZED_RECORD_SIZE];
    var result, length := SerializeRecord(r, buffer, MAX_SERIALIZED_RECORD_SIZE);
    if result != 0 {
      return [];
    }
    return [buffer[..length]];
  }

  // Sends every record the iterator still yields.
  method SendAll(ctx: TablesCtx, it: TableIterator) returns (sent: seq<seq<byte>>, ghost visited: seq<seq<byte>>)
    requires ctx.Valid() && it.Valid() && IsListing(it.storeIterator.order, ctx.store.kv)
    requires forall k: seq<byte> :: k in it.Pending() ==> |k| == 10 && IsHeaderKey(k) && k in ctx.table
    modifies it, it.storeIterator, it.searchKey, it.searchKeyMask
    ensures visited == Visited(old(it.Pending()), ctx.table, MAX_SIGNATURE_SIZE)
    ensures sent == Messages(visited, ctx.table)
  {
    hide Message, Messages, Compile, Selected, Represents, IsListing, Visited;
    ghost var rest := it.Pending();
    sent, visited := [], [];
    MessagesOfNothing(ctx.table);
    var capacity := MAX_SIGNATURE_SIZE;
    var record, length := it.Next(ctx, Some(capacity));
    while record.Some?
      invariant it.Valid()
      invariant forall k: seq<byte> :: k in rest ==> |k| == 10 && IsHeaderKey(k) && k in ctx.table
      invariant record == if rest == [] then None else Retrieve(ctx.table, rest[0], Some(capacity))
      invariant record.Some? ==> it.Pending() == rest[1..] && length == Some(record.value.signatureLength)
      invariant Visited(old(it.Pending()), ctx.table, MAX_SIGNATURE_SIZE) ==
                visited + Visited(rest, ctx.table, capacity)
      invariant sent == Messages(visited, ctx.table)
      decreases |rest|
    {
      var message := SendRecord(Outgoing(record.value));
      ghost var key: Key := rest[0];
      assert Outgoing(record.value) == Stored(ctx.table[key]);
      MessagesAppend(visited, ctx.table, key);
      VisitedStep(visited, rest, ctx.table, capacity);
      visited, sent := visited + [key], sent + message;
      capacity := length.value;
      rest := rest[1..];
      record, length := it.Next(ctx, Some(capacity));
    }
    VisitedEnds(rest, ctx.table, capacity);
  }

  // The keys one pass over a table visits, for a query and a listing of the store, and what the
  // pass broadcasts.
  function PassKeys(table: map<Key, Record>, q: TableQuery, order: seq<seq<byte>>): seq<seq<byte>> {
    Visited(Selected(order, Compile(q)), table, MAX_SIGNATURE_SIZE)
  }

  function Broadcast(table: map<Key, Record>, q: TableQuery, order: seq<seq<byte>>): seq<seq<byte>> {
    Messages(PassKeys(table, q, order), table)
  }

  method SendQueryMatches(ctx: TablesCtx, q: TableQuery, order: seq<seq<byte>>) returns (sent: seq<seq<byte>>)
    requires ctx.Valid() && IsListing(order, ctx.store.kv)
    ensures sent == Broadcast(ctx.table, q, order)
  {
    SelectedKeysAreRecords(ctx.store.kv, ctx.table, order, q);
    var it := new TableIterator(q, order);
    ghost var visited;
    sent, visited := SendAll(ctx, it);
  }

  // ---------------------------------------------------------------- completeness

  // Signature lengths start within a bound and never grow along the keys.
  predicate NonIncreasing(keys: seq<seq<byte>>, table: map<Key, Record>, bound: nat) {
    && (forall i :: 0 <= i < |keys| ==> LengthAt(table, keys[i]) <= bound)
    && (forall i, j :: 0 <= i < j < |keys| ==> LengthAt(table, keys[j]) <= LengthAt(table, keys[i]))
  }

  lemma NonIncreasingStep(keys: seq<seq<byte>>, table: map<Key, Record>, bound: nat)
    requires keys != []
    ensures NonIncreasing(keys, table, bound) <==>
            LengthAt(table, keys[0]) <= bound && NonIncreasing(keys[1..], table, LengthAt(table, keys[0]))
  {
    var tail := keys[1..];
    if LengthAt(table, keys[0]) <= bound && NonIncreasing(tail, table, LengthAt(table, keys[0])) {
      forall i | 0 <= i < |keys| ensures LengthAt(table, keys[i]) <= LengthAt(table, keys[0]) {
        assert i > 0 ==> keys[i] == tail[i - 1];
      }
      forall i, j | 0 <= i < j < |keys| ensures LengthAt(table, keys[j]) <= LengthAt(table, keys[i]) {
        assert keys[j] == tail[j - 1] && (i > 0 ==> keys[i] == tail[i - 1]);
      }
    }
  }

  // A pass reaches every matching record if and only if signature lengths do not grow in visit
  // order; in any case what it reaches is a front part of the matches.
  lemma {:induction false} PassIsCompleteIff(keys: seq<seq<byte>>, table: map<Key, Record>, capacity: nat)
    requires forall k :: k in keys ==> k in table
    ensures Visited(keys, table, capacity) <= keys
    ensures Visited(keys, table, capacity) == keys <==> NonIncreasing(keys, table, capacity)
  {
    if keys != [] {
      hide NonIncreasing, LengthAt;
      NonIncreasingStep(keys, table, capacity);
      if LengthAt(table, keys[0]) <= capacity {
        PassIsCompleteIff(keys[1..], table, LengthAt(table, keys[0]));
        assert keys == [keys[0]] + keys[1..];
      }
    }
  }

  // The records a complete pass visits are exactly the stored records the compiled query
  // matches, each once.
  lemma {:induction false} CompletePassVisitsEachMatchOnce(kv: map<seq<byte>, Blob>, table: map<Key, Record>,
                                                           order: seq<seq<byte>>, q: TableQuery)
    requires Represents(kv, table) && IsListing(order, kv)
    requires NonIncreasing(Selected(order, Compile(q)), table, MAX_SIGNATURE_SIZE)
    ensures
      var visited := PassKeys(table, q, order);
      && (forall k: Key :: k in visited <==> k in table && Matches(KeyOf(table[k].body), Compile(q)))
      && (forall i, j :: 0 <= i < j < |visited| ==> visited[i] != visited[j])
  {
    SelectedIsExactlyTheMatches(order, Compile(q));
    SelectedKeysAreRecords(kv, table, order, q);
    PassIsCompleteIff(Selected(order, Compile(q)), table, MAX_SIGNATURE_SIZE);
    forall k: Key | k in table ensures k in kv && k == KeyOf(table[k].body) {
      assert Holds(kv, k, table[k]);
    }
  }

  // Where compiled and direct evaluation agree, these are exactly the stored records that match
  // the query directly.
  lemma {:induction false} PassVisitsDirectMatches(kv: map<seq<byte>, Blob>, table: map<Key, Record>,
                                                   order: seq<seq<byte>>, q: TableQuery)
    requires Represents(kv, table) && IsListing(order, kv) && InAgreement(q)
    requires NonIncreasing(Selected(order, Compile(q)), table, MAX_SIGNATURE_SIZE)
    ensures
      var visited := PassKeys(table, q, order);
      && (forall k: Key :: k in visited <==> k in table && RecordMatches(table[k].body, q))
      && (forall i, j :: 0 <= i < j < |visited| ==> visited[i] != visited[j])
  {
    assert WellFormedQuery(Compile(q));
    hide Represents, IsListing, NonIncreasing, Selected, Compile, PassKeys, RecordMatches, Matches, InAgreement, KeyOf;
    CompletePassVisitsEachMatchOnce(kv, table, order, q);
    StoreQueryAgreesIff(q);
    assert forall b: Body :: Matches(KeyOf(b), Compile(q)) <==> RecordMatches(b, q);
  }

  // A signature one byte longer than its predecessor already ends the pass, although it would
  // fit the buffer.
  lemma LongerSignatureIsNeverReached(a: seq<byte>, b: seq<byte>, rest: seq<seq<byte>>, table: map<Key, Record>)
    requires a in table && b in table
    requires LengthAt(table, a) < LengthAt(table, b) <= MAX_SIGNATURE_SIZE
    ensures Visited([a, b] + rest, table, MAX_SIGNATURE_SIZE) == [a]
  {
    assert ([a, b] + rest)[1..] == [b] + rest;
  }
}
