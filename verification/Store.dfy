// The key/value store below the tables: put, get and a filtered iteration.
module Store {
  import opened Sequences
  import opened Types

  // The four kinds of value the tables keep. Blob sizes follow the C structures.
  datatype Blob =
    | HeaderBlob(recordType: RecordType, writer: NodeId, sequence: u64, timestamp: Timestamp)
    | DataBlob(data: RecordData)
    | LengthBlob(length: nat)
    | SignatureBlob(bytes: seq<byte>)

  // ---------------------------------------------------------------- masked key match

  // Exclusive or, and conjunction, of the low bits of two numbers.
  function Xor(x: nat, y: nat, bits: nat): nat {
    if bits == 0 then 0 else 2 * Xor(x / 2, y / 2, bits - 1) + (if x % 2 != y % 2 then 1 else 0)
  }

  function And(x: nat, y: nat, bits: nat): nat {
    if bits == 0 then 0 else 2 * And(x / 2, y / 2, bits - 1) + (if x % 2 == 1 && y % 2 == 1 then 1 else 0)
  }

  function Masked(key: byte, pattern: byte, mask: byte): nat {
    And(Xor(key, pattern, 8), mask, 8)
  }

  function Power2(bits: nat): nat {
    if bits == 0 then 1 else 2 * Power2(bits - 1)
  }

  lemma {:induction false} XorDetectsDifference(x: nat, y: nat, bits: nat)
    requires x < Power2(bits) && y < Power2(bits)
    ensures Xor(x, y, bits) < Power2(bits)
    ensures Xor(x, y, bits) == 0 <==> x == y
  {
    if bits > 0 {
      XorDetectsDifference(x / 2, y / 2, bits - 1);
    }
  }

  lemma {:induction false} AllBitsKeep(x: nat, bits: nat)
    requires x < Power2(bits)
    ensures And(x, Power2(bits) - 1, bits) == x
  {
    if bits > 0 {
      assert (Power2(bits) - 1) / 2 == Power2(bits - 1) - 1;
      AllBitsKeep(x / 2, bits - 1);
    }
  }

  lemma {:induction false} NoBitsKeep(x: nat, bits: nat)
    ensures And(x, 0, bits) == 0
  {
    if bits > 0 {
      NoBitsKeep(x / 2, bits - 1);
    }
  }

  lemma FullMaskByte(key: byte, pattern: byte)
    ensures Masked(key, pattern, 255) == 0 <==> key == pattern
  {
    assert Power2(8) == 256 by {
      assert Power2(4) == 16;
    }
    hide And, Xor, Power2;
    XorDetectsDifference(key, pattern, 8);
    AllBitsKeep(Xor(key, pattern, 8), 8);
  }

  lemma EmptyMaskByte(key: byte, pattern: byte)
    ensures Masked(key, pattern, 0) == 0
  {
    NoBitsKeep(Xor(key, pattern, 8), 8);
  }

  // The i-th bit of a number, from the least significant one on.
  predicate Bit(x: nat, i: nat) {
    if i == 0 then x % 2 == 1 else Bit(x / 2, i - 1)
  }

  // Two numbers agree in the low bits that a mask has.
  predicate AgreeUnder(x: nat, y: nat, mask: nat, bits: nat) {
    forall i: nat :: i < bits && Bit(mask, i) ==> (Bit(x, i) <==> Bit(y, i))
  }

  lemma AgreeUnderStep(x: nat, y: nat, mask: nat, bits: nat)
    requires bits > 0
    ensures AgreeUnder(x, y, mask, bits) <==>
            (Bit(mask, 0) ==> (Bit(x, 0) <==> Bit(y, 0))) && AgreeUnder(x / 2, y / 2, mask / 2, bits - 1)
  {
    if AgreeUnder(x, y, mask, bits) {
      forall i: nat | i < bits - 1 && Bit(mask / 2, i) ensures Bit(x / 2, i) <==> Bit(y / 2, i) {
        assert Bit(mask, i + 1) && (Bit(x, i + 1) <==> Bit(y, i + 1));
      }
    }
    if (Bit(mask, 0) ==> (Bit(x, 0) <==> Bit(y, 0))) && AgreeUnder(x / 2, y / 2, mask / 2, bits - 1) {
      forall i: nat | i < bits && Bit(mask, i) ensures Bit(x, i) <==> Bit(y, i) {
        assert i > 0 ==> Bit(mask / 2, i - 1);
      }
    }
  }

  lemma {:induction false} MaskedBits(x: nat, y: nat, mask: nat, bits: nat)
    ensures And(Xor(x, y, bits), mask, bits) == 0 <==> AgreeUnder(x, y, mask, bits)
  {
    if bits > 0 {
      MaskedBits(x / 2, y / 2, mask / 2, bits - 1);
      XorStep(x, y, bits);
      AgreeUnderStep(x, y, mask, bits);
      hide AgreeUnder;
    }
  }

  lemma XorStep(x: nat, y: nat, bits: nat)
    requires bits > 0
    ensures Xor(x, y, bits) / 2 == Xor(x / 2, y / 2, bits - 1)
    ensures Xor(x, y, bits) % 2 == 1 <==> x % 2 != y % 2
  {
  }

  // A byte matches a pattern under a mask if and only if they agree in every bit the mask has.
  lemma {:induction false} MaskedIff(key: byte, pattern: byte, mask: byte)
    ensures Masked(key, pattern, mask) == 0 <==> AgreeUnder(key, pattern, mask, 8)
  {
    MaskedBits(key, pattern, mask, 8);
  }

  datatype StoreQuery = StoreQuery(key: seq<byte>, mask: Option<seq<byte>>)

  predicate WellFormedQuery(q: StoreQuery) {
    q.mask.Some? ==> |q.mask.value| == |q.key|
  }

  predicate Matches(key: seq<byte>, q: StoreQuery)
    requires WellFormedQuery(q)
  {
    && |q.key| == |key|
    && (q.mask.None? ==> key == q.key)
    && (q.mask.Some? ==> forall i :: 0 <= i < |key| ==> Masked(key[i], q.key[i], q.mask.value[i]) == 0)
  }

  method KeyMatchesQuery(key: seq<byte>, q: StoreQuery) returns (matches: bool)
    requires WellFormedQuery(q)
    ensures matches == Matches(key, q)
  {
    if |q.key| != |key| {
      return false;
    }
    if q.mask.None? {
      return key == q.key;
    }
    var i := 0;
    while i < |key|
      invariant 0 <= i <= |key|
      invariant forall j :: 0 <= j < i ==> Masked(key[j], q.key[j], q.mask.value[j]) == 0
    {
      if Masked(key[i], q.key[i], q.mask.value[i]) != 0 {
        return false;
      }
      i := i + 1;
    }
    return true;
  }

  // ---------------------------------------------------------------- the store

  class KvStore {
    var kv: map<seq<byte>, Blob>

    constructor ()
      ensures kv == map[]
    {
      kv := map[];
    }

    // `accepted` says whether the database takes the blob.
    method Put(key: seq<byte>, blob: Blob, accepted: bool) returns (result: int)
      modifies this
      ensures result == if accepted then 0 else -1
      ensures kv == if accepted then old(kv)[key := blob] else old(kv)
    {
      if !accepted {
        return -1;
      }
      kv := kv[key := blob];
      return 0;
    }

    method Get(key: seq<byte>) returns (blob: Option<Blob>)
      ensures blob == if key in kv then Some(kv[key]) else None
    {
      if key in kv {
        blob := Some(kv[key]);
      } else {
        blob := None;
      }
    }
  }

  // ---------------------------------------------------------------- iteration

  // A listing of the keys of a store in whatever order the database holds them.
  ghost predicate IsListing(order: seq<seq<byte>>, kv: map<seq<byte>, Blob>) {
    && (forall k :: k in kv <==> k in order)
    && (forall i, j :: 0 <= i < j < |order| ==> order[i] != order[j])
  }

  // The keys of a listing that match a query, in listing order.
  function Selected(order: seq<seq<byte>>, q: StoreQuery): seq<seq<byte>>
    requires WellFormedQuery(q)
  {
    if order == [] then []
    else (if Matches(order[0], q) then [order[0]] else []) + Selected(order[1..], q)
  }

  lemma {:induction false} SelectedIsExactlyTheMatches(order: seq<seq<byte>>, q: StoreQuery)
    requires WellFormedQuery(q)
    requires forall i, j :: 0 <= i < j < |order| ==> order[i] != order[j]
    ensures forall k :: k in Selected(order, q) <==> k in order && Matches(k, q)
    ensures forall i, j :: 0 <= i < j < |Selected(order, q)| ==> Selected(order, q)[i] != Selected(order, q)[j]
  {
    if order != [] {
      SelectedIsExactlyTheMatches(order[1..], q);
      var rest := Selected(order[1..], q);
      assert forall k :: k in order <==> k == order[0] || k in order[1..];
      assert order[0] !in order[1..];
      assert order[0] !in rest;
    }
  }

  // They come in the order of the listing.
  lemma {:induction false} SelectedInOrder(order: seq<seq<byte>>, q: StoreQuery)
    requires WellFormedQuery(q)
    ensures InOrder(Selected(order, q), order)
  {
    hide InOrder, Matches;
    if order == [] {
      NothingIsInOrder(order);
    } else {
      SelectedInOrder(order[1..], q);
      OneBeforeInOrder(Selected(order[1..], q), order[1..], order[0]);
      assert order == [order[0]] + order[1..];
      assert [] + Selected(order[1..], q) == Selected(order[1..], q);
    }
  }

  // An iterator over the listing the database will follow; Init fixes the query and rewinds.
  class StoreIterator {
    const order: seq<seq<byte>>
    var query: StoreQuery
    var position: nat

    ghost predicate Valid()
      reads this
    {
      position <= |order| && WellFormedQuery(query)
    }

    // The matching keys still to come.
    ghost function Pending(): seq<seq<byte>>
      requires Valid()
      reads this
    {
      Selected(order[position..], query)
    }

    constructor (order: seq<seq<byte>>)
      ensures this.order == order
    {
      this.order, this.query, this.position := order, StoreQuery([], None), 0;
    }

    method Init(query: StoreQuery)
      requires WellFormedQuery(query)
      modifies this
      ensures Valid() && this.query == query && Pending() == Selected(order, query)
    {
      this.query, this.position := query, 0;
      assert order[0..] == order;
    }

    // Skips to the next matching key; None when the listing is exhausted.
    method Next() returns (key: Option<seq<byte>>)
      requires Valid()
      modifies this`position
      ensures Valid()
      ensures key.None? <==> old(Pending()) == []
      ensures key.None? ==> Pending() == []
      ensures key.Some? ==> old(Pending()) == [key.value] + Pending()
    {
      while position < |order|
        invariant Valid()
        invariant Pending() == old(Pending())
        decreases |order| - position
      {
        var candidate := order[position];
        assert order[position..][0] == candidate && order[position..][1..] == order[position + 1..];
        position := position + 1;
        var matches := KeyMatchesQuery(candidate, query);
        if matches {
          return Some(candidate);
        }
      }
      return None;
    }
  }
}
