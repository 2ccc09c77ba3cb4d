// The part of CBOR (RFC 8949) that the messages use: one flat array of unsigned integers, byte
// strings and simple values. Encoding follows preferred serialization (section 4.1); decoding
// accepts every argument width of section 3, and arrays and byte strings of indefinite length
// (section 3.2).
module Cbor {
  import opened Types

  // ---------------------------------------------------------------- big-endian arguments

  function Capacity(width: nat): nat {
    if width == 0 then 1 else 256 * Capacity(width - 1)
  }

  function BigEndian(n: nat, width: nat): (s: seq<byte>)
    ensures |s| == width
  {
    if width == 0 then [] else BigEndian(n / 256, width - 1) + [n % 256]
  }

  function FromBigEndian(s: seq<byte>): nat {
    if s == [] then 0 else 256 * FromBigEndian(s[..|s| - 1]) + s[|s| - 1]
  }

  lemma {:induction false} BigEndianRoundTrip(n: nat, width: nat)
    requires n < Capacity(width)
    ensures FromBigEndian(BigEndian(n, width)) == n
  {
    if width > 0 {
      BigEndianRoundTrip(n / 256, width - 1);
      var s := BigEndian(n, width);
      assert s[..|s| - 1] == BigEndian(n / 256, width - 1);
    }
  }

  lemma Capacities()
    ensures Capacity(1) == 0x100 && Capacity(2) == 0x1_0000 && Capacity(4) == U32 && Capacity(8) == U64
  {
    assert Capacity(2) == 0x1_0000;
    assert Capacity(4) == 256 * (256 * Capacity(2)) == U32;
    assert Capacity(6) == 256 * (256 * Capacity(4));
    assert Capacity(8) == 256 * (256 * Capacity(6)) == U64;
  }

  // ---------------------------------------------------------------- heads

  const UNSIGNED: nat := 0
  const BYTE_STRING: nat := 2
  const ARRAY: nat := 4
  const SIMPLE: nat := 7

  // The additional information of the shortest head for an argument.
  function Info(n: nat): (i: nat)
    ensures i < 28
  {
    if n < 24 then n else if n < 0x100 then 24 else if n < 0x1_0000 then 25 else if n < U32 then 26 else 27
  }

  // The number of argument bytes that additional information announces.
  function ArgumentWidth(info: nat): nat {
    if info < 24 then 0 else if info == 24 then 1 else if info == 25 then 2 else if info == 26 then 4 else 8
  }

  function Head(major: nat, n: nat): seq<byte>
    requires major < 8
  {
    [major * 32 + Info(n)] + BigEndian(n, ArgumentWidth(Info(n)))
  }

  datatype HeadRead = HeadRead(major: nat, argument: nat, next: nat)

  function ReadHead(buf: seq<byte>, pos: nat): (h: Option<HeadRead>)
    ensures h.Some? ==> pos < h.value.next <= |buf|
  {
    if pos >= |buf| || buf[pos] % 32 >= 28 then None
    else
      var info := buf[pos] % 32;
      var next := pos + 1 + ArgumentWidth(info);
      if next > |buf| then None
      else Some(HeadRead(buf[pos] / 32, if info < 24 then info else FromBigEndian(buf[pos + 1..next]), next))
  }

  // The first byte of a head splits back into its two parts, and the argument fits its width.
  lemma HeadParts(major: nat, n: nat)
    requires major < 8 && n < U64
    ensures Head(major, n)[0] / 32 == major && Head(major, n)[0] % 32 == Info(n)
    ensures n >= 24 ==> n < Capacity(ArgumentWidth(Info(n)))
  {
    Capacities();
  }

  // ---------------------------------------------------------------- items

  // Chunks is a byte string of indefinite length, with the contents of its chunks joined.
  datatype Item = UInt(n: nat) | Bytes(bytes: seq<byte>) | Chunks(bytes: seq<byte>) | Simple(v: byte)

  const INDEFINITE_STRING: byte := 0x5F
  const INDEFINITE_ARRAY: byte := 0x9F
  const BREAK: byte := 0xFF

  // A small number, written as a simple value or as an unsigned integer.
  function AsU8(i: Item): Option<byte> {
    match i
    case Simple(v) => Some(v)
    case UInt(n) => if n < 256 then Some(n) else None
    case _ => None
  }

  // The items the serializers produce.
  predicate Encodable(i: Item) {
    match i
    case UInt(n) => n < U64
    case Bytes(s) => |s| < U64
    case Chunks(_) => false
    case Simple(v) => v < 20
  }

  predicate AllEncodable(items: seq<Item>) {
    forall k :: 0 <= k < |items| ==> Encodable(items[k])
  }

  function EncodeItem(i: Item): seq<byte> {
    match i
    case UInt(n) => Head(UNSIGNED, n)
    case Bytes(s) => Head(BYTE_STRING, |s|) + s
    case Chunks(s) => [INDEFINITE_STRING] + Head(BYTE_STRING, |s|) + s + [BREAK]
    case Simple(v) => Head(SIMPLE, v)
  }

  function EncodeItems(items: seq<Item>): seq<byte> {
    if items == [] then [] else EncodeItem(items[0]) + EncodeItems(items[1..])
  }

  function EncodeArray(items: seq<Item>): seq<byte> {
    Head(ARRAY, |items|) + EncodeItems(items)
  }

  datatype ItemRead = ItemRead(item: Item, next: nat)

  // Simple values 20 to 23 are the booleans, null and undefined, which no decoder here asks for;
  // the two-byte form must not encode a value below 32 (section 3.3).
  function ReadItem(buf: seq<byte>, pos: nat): (r: Option<ItemRead>)
    ensures r.Some? ==> pos < r.value.next <= |buf|
  {
    if pos < |buf| && buf[pos] == INDEFINITE_STRING then ReadChunks(buf, pos + 1)
    else ReadDefinite(buf, pos)
  }

  function ReadDefinite(buf: seq<byte>, pos: nat): (r: Option<ItemRead>)
    ensures r.Some? ==> pos < r.value.next <= |buf|
  {
    match ReadHead(buf, pos)
    case None => None
    case Some(h) =>
      if h.major == UNSIGNED then Some(ItemRead(UInt(h.argument), h.next))
      else if h.major == BYTE_STRING && h.next + h.argument <= |buf| then
        Some(ItemRead(Bytes(buf[h.next..h.next + h.argument]), h.next + h.argument))
      else if h.major == SIMPLE && buf[pos] % 32 < 20 then Some(ItemRead(Simple(h.argument), h.next))
      else if h.major == SIMPLE && buf[pos] % 32 == 24 && 32 <= h.argument < 256 then
        Some(ItemRead(Simple(h.argument), h.next))
      else None
  }

  // The chunks of a byte string, each of definite length, up to the break.
  function ReadChunks(buf: seq<byte>, pos: nat): (r: Option<ItemRead>)
    ensures r.Some? ==> r.value.item.Chunks? && pos < r.value.next <= |buf|
    decreases |buf| - pos
  {
    if pos >= |buf| then None
    else if buf[pos] == BREAK then Some(ItemRead(Chunks([]), pos + 1))
    else
      match ReadDefinite(buf, pos)
      case None => None
      case Some(chunk) =>
        if !chunk.item.Bytes? then None
        else
          match ReadChunks(buf, chunk.next)
          case None => None
          case Some(rest) => Some(ItemRead(Chunks(chunk.item.bytes + rest.item.bytes), rest.next))
  }

  function ReadItems(buf: seq<byte>, pos: nat, count: nat): Option<seq<Item>>
    decreases count
  {
    if count == 0 then Some([])
    else match ReadItem(buf, pos)
         case None => None
         case Some(r) =>
           match ReadItems(buf, r.next, count - 1)
           case None => None
           case Some(rest) => Some([r.item] + rest)
  }

  function ReadToBreak(buf: seq<byte>, pos: nat): Option<seq<Item>>
    decreases |buf| - pos
  {
    if pos >= |buf| then None
    else if buf[pos] == BREAK then Some([])
    else
      match ReadItem(buf, pos)
      case None => None
      case Some(r) =>
        match ReadToBreak(buf, r.next)
        case None => None
        case Some(rest) => Some([r.item] + rest)
  }

  // The items from a position on: a count of them, or all up to the break.
  function ReadRest(buf: seq<byte>, pos: nat, remaining: Option<nat>): Option<seq<Item>> {
    if remaining.Some? then ReadItems(buf, pos, remaining.value) else ReadToBreak(buf, pos)
  }

  // The items of the array at the start of a buffer; what follows the array is not looked at.
  function ReadArray(buf: seq<byte>): Option<seq<Item>> {
    if buf != [] && buf[0] == INDEFINITE_ARRAY then ReadRest(buf, 1, None)
    else
      match ReadHead(buf, 0)
      case None => None
      case Some(h) => if h.major == ARRAY then ReadRest(buf, h.next, Some(h.argument)) else None
  }

  lemma {:induction false} EncodeItemsConcat(a: seq<Item>, b: seq<Item>)
    ensures EncodeItems(a + b) == EncodeItems(a) + EncodeItems(b)
    decreases |a|
  {
    if a == [] {
      assert a + b == b;
    } else {
      assert (a + b)[1..] == a[1..] + b;
      EncodeItemsConcat(a[1..], b);
    }
  }

  // ---------------------------------------------------------------- sizes

  function HeadSize(n: nat): nat {
    1 + ArgumentWidth(Info(n))
  }

  function ItemSize(i: Item): nat {
    match i
    case UInt(n) => HeadSize(n)
    case Bytes(s) => HeadSize(|s|) + |s|
    case Chunks(s) => HeadSize(|s|) + |s| + 2
    case Simple(v) => HeadSize(v)
  }

  function ItemsSize(items: seq<Item>): nat {
    if items == [] then 0 else ItemSize(items[0]) + ItemsSize(items[1..])
  }

  lemma {:induction false} EncodeItemsSize(items: seq<Item>)
    ensures |EncodeItems(items)| == ItemsSize(items)
  {
    if items != [] {
      EncodeItemsSize(items[1..]);
    }
  }

  lemma {:induction false} ItemsSizeConcat(a: seq<Item>, b: seq<Item>)
    ensures ItemsSize(a + b) == ItemsSize(a) + ItemsSize(b)
    decreases |a|
  {
    if a == [] {
      assert a + b == b;
    } else {
      assert (a + b)[1..] == a[1..] + b;
      ItemsSizeConcat(a[1..], b);
    }
  }

  lemma ItemsSizeStep(items: seq<Item>, k: nat)
    requires k < |items|
    ensures ItemsSize(items[k..]) == ItemSize(items[k]) + ItemsSize(items[k + 1..])
  {
    hide ItemSize;
    assert items[k..][1..] == items[k + 1..];
  }

  lemma ItemsSizeOfNothing(items: seq<Item>)
    ensures ItemsSize(items[|items|..]) == 0
  {
  }

  lemma ItemsSizeUnrolled(items: seq<Item>)
    requires 1 <= |items| <= 5
    ensures ItemsSize(items) ==
            ItemSize(items[0])
            + (if |items| > 1 then ItemSize(items[1]) else 0)
            + (if |items| > 2 then ItemSize(items[2]) else 0)
            + (if |items| > 3 then ItemSize(items[3]) else 0)
            + (if |items| > 4 then ItemSize(items[4]) else 0)
  {
    hide ItemSize, ItemsSize;
    assert items[0..] == items;
    forall k | 0 <= k < |items| ensures ItemsSize(items[k..]) == ItemSize(items[k]) + ItemsSize(items[k + 1..]) {
      ItemsSizeStep(items, k);
    }
    ItemsSizeOfNothing(items);
  }

  // An array head for `announced` items followed by some items.
  function Content(announced: nat, items: seq<Item>): seq<byte> {
    Head(ARRAY, announced) + EncodeItems(items)
  }

  lemma ContentConcat(announced: nat, a: seq<Item>, b: seq<Item>)
    ensures Content(announced, a + b) == Content(announced, a) + EncodeItems(b)
  {
    EncodeItemsConcat(a, b);
    assert Content(announced, a + b) == Head(ARRAY, announced) + (EncodeItems(a) + EncodeItems(b));
  }

  lemma ContentAppend(announced: nat, items: seq<Item>, i: Item)
    ensures Content(announced, items + [i]) == Content(announced, items) + EncodeItem(i)
  {
    ContentConcat(announced, items, [i]);
    assert EncodeItems([i]) == EncodeItem(i) + EncodeItems([i][1..]) == EncodeItem(i) + [];
  }

  // ---------------------------------------------------------------- the encoder

  // Two states of a buffer agree from a position on.
  ghost predicate SameFrom(position: nat, a: seq<byte>, b: seq<byte>) {
    position <= |a| == |b| && forall k :: position <= k < |a| ==> a[k] == b[k]
  }

  // Writes one array into a caller's buffer of which `capacity` bytes may be used. `remaining`
  // counts the items the array still expects.
  class Encoder {
    const out: array<byte>
    const capacity: nat
    var position: nat
    var remaining: int
    ghost var announced: nat
    ghost var added: seq<Item>

    // The used part of the buffer is the array head followed by the items added so far.
    ghost predicate Valid()
      reads this, out
    {
      && position <= capacity <= out.Length
      && out[..position] == Content(announced, added)
      && remaining == announced - |added|
    }

    // The array head and these items do not fit.
    ghost predicate Overflows(items: seq<Item>)
      reads this
    {
      |Content(announced, items)| > capacity
    }

    lemma OverflowsPrefix(part: seq<Item>, items: seq<Item>)
      requires Overflows(part) && part <= items
      ensures Overflows(items)
    {
      assert items == part + items[|part|..];
      ContentConcat(announced, part, items[|part|..]);
    }

    constructor (out: array<byte>, capacity: nat)
      requires capacity <= out.Length
      ensures this.out == out && this.capacity == capacity && position == 0
    {
      this.out, this.capacity, this.position, this.remaining := out, capacity, 0, 0;
    }

    method Append(bytes: seq<byte>) returns (ok: bool)
      requires position <= capacity <= out.Length
      modifies this`position, out
      ensures ok <==> old(position) + |bytes| <= capacity
      ensures ok ==> position == old(position) + |bytes| && out[..position] == old(out[..position]) + bytes
      ensures !ok ==> position == old(position)
      ensures SameFrom(position, out[..], old(out[..]))
    {
      if position + |bytes| > capacity {
        return false;
      }
      var i := 0;
      while i < |bytes|
        invariant 0 <= i <= |bytes| && position == old(position)
        invariant forall j :: 0 <= j < out.Length ==>
                                out[j] == if position <= j < position + i then bytes[j - position] else old(out[j])
      {
        out[position + i] := bytes[i];
        i := i + 1;
      }
      position := position + |bytes|;
      return true;
    }

    method CreateArray(size: nat) returns (ok: bool)
      requires position == 0 <= capacity <= out.Length
      modifies this, out
      ensures announced == size && (ok ==> Valid() && added == [])
      ensures !ok ==> Overflows([])
      ensures SameFrom(position, out[..], old(out[..]))
    {
      announced, added, remaining := size, [], size;
      assert Content(size, []) == Head(ARRAY, size);
      ok := Append(Head(ARRAY, size));
    }

    method Encode(i: Item) returns (ok: bool)
      requires Valid()
      modifies this, out
      ensures announced == old(announced)
      ensures ok ==> Valid() && added == old(added) + [i]
      ensures !ok ==> Overflows(old(added) + [i])
      ensures old(position) <= position && SameFrom(position, out[..], old(out[..]))
    {
      ContentAppend(announced, added, i);
      ok := Append(EncodeItem(i));
      added := added + [i];
      remaining := remaining - 1;
    }

    // Closing fails unless exactly the announced number of items was added.
    method CloseArray() returns (ok: bool)
      requires Valid()
      ensures ok <==> |added| == announced
    {
      return remaining == 0;
    }
  }

  // ---------------------------------------------------------------- the decoder

  // Reading one item takes it off the front of what is left, or shows that the rest is malformed.
  ghost predicate Consumed(before: Option<seq<Item>>, item: Item, after: Option<seq<Item>>) {
    && (before.None? <==> after.None?)
    && (before.Some? ==> before.value == [item] + after.value)
  }

  class Cursor {
    const buf: seq<byte>
    var position: nat
    // How many items are left; None in an array of indefinite length.
    var remaining: Option<nat>

    // What the rest of the array decodes to.
    ghost function Rest(): Option<seq<Item>>
      reads this
    {
      ReadRest(buf, position, remaining)
    }

    constructor (buf: seq<byte>)
      ensures this.buf == buf && position == 0 && remaining == Some(0)
    {
      this.buf, this.position, this.remaining := buf, 0, Some(0);
    }

    method EnterArray() returns (ok: bool)
      requires position == 0
      modifies this
      ensures ok ==> Rest() == ReadArray(buf)
      ensures !ok ==> ReadArray(buf) == None
    {
      if buf != [] && buf[0] == INDEFINITE_ARRAY {
        position, remaining := 1, None;
        return true;
      }
      match ReadHead(buf, 0) {
        case None =>
          return false;
        case Some(h) =>
          if h.major != ARRAY {
            return false;
          }
          position, remaining := h.next, Some(h.argument);
          return true;
      }
    }

    predicate Ended()
      reads this
    {
      if remaining.Some? then remaining.value == 0 else position < |buf| && buf[position] == BREAK
    }

    method AtEnd() returns (end: bool)
      ensures end <==> Rest() == Some([])
    {
      return Ended();
    }

    method Peek() returns (item: Option<Item>)
      ensures item.Some? ==> !Ended() && exists next :: ReadItem(buf, position) == Some(ItemRead(item.value, next))
      ensures item.Some? && Rest().Some? ==> Rest().value != [] && Rest().value[0] == item.value
      ensures item.None? ==> Rest() == None || Rest() == Some([])
    {
      hide ReadDefinite, ReadChunks;
      if Ended() {
        return None;
      }
      match ReadItem(buf, position) {
        case None =>
          return None;
        case Some(r) =>
          assert ReadItem(buf, position) == Some(ItemRead(r.item, r.next));
          return Some(r.item);
      }
    }

    // Moves past the item that Peek has shown.
    method Advance()
      requires !Ended() && ReadItem(buf, position).Some?
      modifies this
      ensures Consumed(old(Rest()), old(ReadItem(buf, position).value.item), Rest())
    {
      hide ReadItem;
      position := ReadItem(buf, position).value.next;
      if remaining.Some? {
        remaining := Some(remaining.value - 1);
      }
    }

    method Take() returns (item: Option<Item>)
      modifies this
      ensures item.Some? ==> Consumed(old(Rest()), item.value, Rest())
      ensures item.None? ==> old(Rest()) == None || old(Rest()) == Some([])
    {
      item := Peek();
      if item.Some? {
        Advance();
      }
    }
  }
}
