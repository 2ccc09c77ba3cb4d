// The bytes the decoders take, written out: a grammar of the part of CBOR (RFC 8949, section 3)
// that the messages use, and the proof that reading accepts exactly its sentences.
module Wire {
  import opened Types
  import opened Cbor

  // ---------------------------------------------------------------- heads

  // Where the argument of a head stands: in the first byte, or in so many bytes after it. No
  // width is excluded for a small argument.
  datatype Width = Immediate | One | Two | Four | Eight

  predicate Fits(w: Width, n: nat) {
    match w
    case Immediate => n < 24
    case One => n < 0x100
    case Two => n < 0x1_0000
    case Four => n < 0x1_0000_0000
    case Eight => n < 0x1_0000_0000_0000_0000
  }

  function Digits2(n: nat): (d: seq<byte>)
    requires n < 0x1_0000
    ensures |d| == 2
  {
    [n / 0x100, n % 0x100]
  }

  function Digits4(n: nat): (d: seq<byte>)
    requires n < 0x1_0000_0000
    ensures |d| == 4
  {
    Digits2(n / 0x1_0000) + Digits2(n % 0x1_0000)
  }

  function Digits8(n: nat): (d: seq<byte>)
    requires n < 0x1_0000_0000_0000_0000
    ensures |d| == 8
  {
    Digits4(n / 0x1_0000_0000) + Digits4(n % 0x1_0000_0000)
  }

  // The bytes after the first one of a head.
  function Argument(n: nat, w: Width): (d: seq<byte>)
    requires Fits(w, n)
  {
    match w
    case Immediate => []
    case One => [n]
    case Two => Digits2(n)
    case Four => Digits4(n)
    case Eight => Digits8(n)
  }

  // The low five bits of the first byte.
  function LowBits(n: nat, w: Width): (b: byte)
    requires Fits(w, n)
    ensures b < 28
  {
    match w
    case Immediate => n
    case One => 0x18
    case Two => 0x19
    case Four => 0x1A
    case Eight => 0x1B
  }

  // The head of an item: `first` is its first byte without the low five bits.
  function HeadBytes(first: byte, n: nat, w: Width): (h: seq<byte>)
    requires first <= 0xE0 && Fits(w, n)
    ensures h != []
  {
    [first + LowBits(n, w)] + Argument(n, w)
  }

  lemma Value2(s: seq<byte>)
    requires |s| == 2
    ensures FromBigEndian(s) == 256 * (s[0] as nat) + s[1]
  {
    assert s[..1] == [s[0]] && s[..1][..0] == [];
    assert FromBigEndian([s[0]]) == s[0] by {
      assert [s[0]][..0] == [];
    }
  }

  lemma {:induction false} ValueOfConcat(a: seq<byte>, b: seq<byte>)
    ensures FromBigEndian(a + b) == FromBigEndian(a) * Capacity(|b|) + FromBigEndian(b)
    decreases |b|
  {
    if b == [] {
      assert a + b == a;
    } else {
      var front := b[..|b| - 1];
      ValueOfConcat(a, front);
      assert (a + b)[..|a + b| - 1] == a + front;
      ShiftedSum(FromBigEndian(a), Capacity(|front|), FromBigEndian(front));
    }
  }

  lemma ShiftedSum(x: nat, c: nat, y: nat)
    ensures 256 * (x * c + y) == x * (256 * c) + 256 * y
  {
  }

  lemma {:induction false} ValueIsBounded(s: seq<byte>)
    ensures FromBigEndian(s) < Capacity(|s|)
    decreases |s|
  {
    if s != [] {
      ValueIsBounded(s[..|s| - 1]);
    }
  }

  lemma DigitsAndValue2(s: seq<byte>, n: nat)
    requires |s| == 2 && n < 0x1_0000
    ensures FromBigEndian(s) < 0x1_0000 && (s == Digits2(n) <==> FromBigEndian(s) == n)
  {
    Value2(s);
  }

  lemma DigitsAndValue4(s: seq<byte>, n: nat)
    requires |s| == 4 && n < 0x1_0000_0000
    ensures FromBigEndian(s) < 0x1_0000_0000 && (s == Digits4(n) <==> FromBigEndian(s) == n)
  {
    hide Digits2, FromBigEndian;
    assert s == s[..2] + s[2..];
    Capacities();
    ValueOfConcat(s[..2], s[2..]);
    DigitsAndValue2(s[..2], n / 0x1_0000);
    DigitsAndValue2(s[2..], n % 0x1_0000);
    assert s == Digits4(n) <==> s[..2] == Digits2(n / 0x1_0000) && s[2..] == Digits2(n % 0x1_0000) by {
      assert Digits4(n)[..2] == Digits2(n / 0x1_0000) && Digits4(n)[2..] == Digits2(n % 0x1_0000);
    }
  }

  lemma DigitsAndValue8(s: seq<byte>, n: nat)
    requires |s| == 8 && n < 0x1_0000_0000_0000_0000
    ensures FromBigEndian(s) < 0x1_0000_0000_0000_0000 && (s == Digits8(n) <==> FromBigEndian(s) == n)
  {
    hide Digits4, FromBigEndian;
    assert s == s[..4] + s[4..];
    Capacities();
    ValueOfConcat(s[..4], s[4..]);
    DigitsAndValue4(s[..4], n / 0x1_0000_0000);
    DigitsAndValue4(s[4..], n % 0x1_0000_0000);
    assert s == Digits8(n) <==> s[..4] == Digits4(n / 0x1_0000_0000) && s[4..] == Digits4(n % 0x1_0000_0000) by {
      assert Digits8(n)[..4] == Digits4(n / 0x1_0000_0000) && Digits8(n)[4..] == Digits4(n % 0x1_0000_0000);
    }
  }

  function WidthOf(info: nat): Width
    requires info < 28
  {
    if info < 24 then Immediate else if info == 24 then One else if info == 25 then Two
    else if info == 26 then Four else Eight
  }

  lemma ArgumentAndValue(s: seq<byte>, w: Width, n: nat)
    requires w != Immediate && Fits(w, n)
    requires |s| == (match w case Immediate => 0 case One => 1 case Two => 2 case Four => 4 case Eight => 8)
    ensures Fits(w, FromBigEndian(s)) && (s == Argument(n, w) <==> FromBigEndian(s) == n)
  {
    hide FromBigEndian, Digits2, Digits4, Digits8;
    match w {
      case One =>
        ValueOfByte(s);
      case Two => DigitsAndValue2(s, n);
      case Four => DigitsAndValue4(s, n);
      case Eight => DigitsAndValue8(s, n);
    }
  }

  lemma ValueOfByte(s: seq<byte>)
    requires |s| == 1
    ensures FromBigEndian(s) == s[0]
  {
    assert s[..0] == [];
  }

  lemma FirstByteSplits(major: nat, n: nat, w: Width)
    requires major < 8 && Fits(w, n)
    ensures (32 * major + LowBits(n, w)) / 32 == major && (32 * major + LowBits(n, w)) % 32 == LowBits(n, w)
    ensures WidthOf(LowBits(n, w)) == w
  {
  }

  // Some bytes stand in a buffer at a position.
  predicate Stands(buf: seq<byte>, pos: nat, bytes: seq<byte>) {
    pos + |bytes| <= |buf| && buf[pos..pos + |bytes|] == bytes
  }

  lemma StandsSplits(buf: seq<byte>, pos: nat, a: seq<byte>, b: seq<byte>)
    requires Stands(buf, pos, a + b)
    ensures Stands(buf, pos, a) && Stands(buf, pos + |a|, b)
  {
    assert buf[pos..pos + |a|] == (a + b)[..|a|] == a;
    assert buf[pos + |a|..pos + |a + b|] == (a + b)[|a|..] == b;
  }

  // A head reads as its argument, in whatever width.
  lemma ReadHeadStanding(buf: seq<byte>, pos: nat, major: nat, n: nat, w: Width)
    requires major < 8 && Fits(w, n) && Stands(buf, pos, HeadBytes(32 * major, n, w))
    ensures ReadHead(buf, pos) == Some(HeadRead(major, n, pos + |HeadBytes(32 * major, n, w)|))
    ensures pos < |buf| && buf[pos] == 32 * major + LowBits(n, w)
    ensures buf[pos] / 32 == major && buf[pos] % 32 < 28
  {
    FirstByteSplits(major, n, w);
    hide FromBigEndian, Digits2, Digits4, Digits8;
    var h := HeadBytes(32 * major, n, w);
    assert buf[pos] == buf[pos..pos + |h|][0] == h[0];
    assert buf[pos + 1..pos + |h|] == h[1..] == Argument(n, w);
    if w != Immediate {
      ArgumentAndValue(buf[pos + 1..pos + |h|], w, n);
    }
  }

  // And nothing else reads as a head.
  lemma ReadHeadIsWire(buf: seq<byte>, pos: nat) returns (w: Width)
    requires ReadHead(buf, pos).Some?
    ensures
      var h := ReadHead(buf, pos).value;
      && h.major < 8 && Fits(w, h.argument) && pos < |buf| && w == WidthOf(buf[pos] % 32)
      && Stands(buf, pos, HeadBytes(32 * h.major, h.argument, w))
      && h.next == pos + |HeadBytes(32 * h.major, h.argument, w)|
  {
    hide FromBigEndian, Digits2, Digits4, Digits8;
    var h := ReadHead(buf, pos).value;
    w := WidthOf(buf[pos] % 32);
    var s := buf[pos + 1..h.next];
    if w != Immediate {
      ArgumentAndValue(s, w, 0);
      ArgumentAndValue(s, w, FromBigEndian(s));
    }
    assert buf[pos..h.next] == [buf[pos]] + s;
  }

  // ---------------------------------------------------------------- items

  // A byte string of definite length.
  datatype Piece = Piece(bytes: seq<byte>, w: Width) {
    predicate Valid() {
      Fits(w, |bytes|)
    }

    function Encoding(): (e: seq<byte>)
      requires Valid()
      ensures e != []
    {
      HeadBytes(0x40, |bytes|, w) + bytes
    }
  }

  // An item as it can stand on the wire.
  datatype Form = Number(n: nat, w: Width) | Whole(piece: Piece) | Cut(pieces: seq<Piece>) | Value(v: byte) {
    predicate Valid() {
      match this
      case Number(n, w) => Fits(w, n)
      case Whole(p) => p.Valid()
      case Cut(ps) => AllPieces(ps)
      case Value(v) => v < 20 || v >= 32
    }

    function Encoding(): seq<byte>
      requires Valid()
    {
      match this
      case Number(n, w) => HeadBytes(0x00, n, w)
      case Whole(p) => p.Encoding()
      case Cut(ps) => [0x5F] + (Pieces(ps) + [0xFF])
      case Value(v) => if v < 20 then [0xE0 + v] else [0xF8, v]
    }

    // The item it stands for.
    function Meaning(): Item {
      match this
      case Number(n, _) => UInt(n)
      case Whole(p) => Bytes(p.bytes)
      case Cut(ps) => Chunks(Joined(ps))
      case Value(v) => Simple(v)
    }
  }

  predicate AllPieces(ps: seq<Piece>) {
    forall p :: p in ps ==> p.Valid()
  }

  function Pieces(ps: seq<Piece>): seq<byte>
    requires AllPieces(ps)
  {
    if ps == [] then [] else ps[0].Encoding() + Pieces(ps[1..])
  }

  function Joined(ps: seq<Piece>): seq<byte> {
    if ps == [] then [] else ps[0].bytes + Joined(ps[1..])
  }

  lemma FirstByte(buf: seq<byte>, pos: nat, bytes: seq<byte>)
    requires Stands(buf, pos, bytes) && bytes != []
    ensures pos < |buf| && buf[pos] == bytes[0]
  {
    assert buf[pos..pos + |bytes|][0] == bytes[0];
  }

  lemma StandsJoins(buf: seq<byte>, pos: nat, a: seq<byte>, b: seq<byte>)
    requires Stands(buf, pos, a) && Stands(buf, pos + |a|, b)
    ensures Stands(buf, pos, a + b)
  {
    assert buf[pos..pos + |a + b|] == buf[pos..pos + |a|] + buf[pos + |a|..pos + |a| + |b|];
  }

  lemma ReadPieceStanding(buf: seq<byte>, pos: nat, p: Piece)
    requires p.Valid() && Stands(buf, pos, p.Encoding())
    ensures pos < |buf| && buf[pos] != BREAK && buf[pos] != INDEFINITE_STRING
    ensures ReadDefinite(buf, pos) == Some(ItemRead(Bytes(p.bytes), pos + |p.Encoding()|))
  {
    hide HeadBytes, ReadHead;
    StandsSplits(buf, pos, HeadBytes(0x40, |p.bytes|, p.w), p.bytes);
    ReadHeadStanding(buf, pos, 2, |p.bytes|, p.w);
  }

  lemma ReadPieceIsWire(buf: seq<byte>, pos: nat) returns (p: Piece)
    requires ReadDefinite(buf, pos).Some? && ReadDefinite(buf, pos).value.item.Bytes?
    ensures p.Valid() && Stands(buf, pos, p.Encoding())
    ensures ReadDefinite(buf, pos) == Some(ItemRead(Bytes(p.bytes), pos + |p.Encoding()|))
  {
    hide HeadBytes, ReadHead;
    var h := ReadHead(buf, pos).value;
    var w := ReadHeadIsWire(buf, pos);
    p := Piece(buf[h.next..h.next + h.argument], w);
    StandsJoins(buf, pos, HeadBytes(0x40, |p.bytes|, w), p.bytes);
  }

  lemma {:induction false} ReadPiecesStanding(buf: seq<byte>, pos: nat, ps: seq<Piece>)
    requires AllPieces(ps) && Stands(buf, pos, Pieces(ps) + [0xFF])
    ensures ReadChunks(buf, pos) == Some(ItemRead(Chunks(Joined(ps)), pos + |Pieces(ps)| + 1))
    decreases |ps|
  {
    hide ReadDefinite, Stands, Piece.Encoding;
    if ps == [] {
      assert Pieces(ps) + [0xFF] == [0xFF];
      FirstByte(buf, pos, [0xFF]);
    } else {
      var rest := Pieces(ps[1..]) + [0xFF];
      assert Pieces(ps) + [0xFF] == ps[0].Encoding() + rest;
      StandsSplits(buf, pos, ps[0].Encoding(), rest);
      ReadPieceStanding(buf, pos, ps[0]);
      ReadPiecesStanding(buf, pos + |ps[0].Encoding()|, ps[1..]);
    }
  }

  lemma {:induction false} ReadChunksIsWire(buf: seq<byte>, pos: nat) returns (ps: seq<Piece>)
    requires ReadChunks(buf, pos).Some?
    ensures AllPieces(ps) && Stands(buf, pos, Pieces(ps) + [0xFF])
    ensures ReadChunks(buf, pos) == Some(ItemRead(Chunks(Joined(ps)), pos + |Pieces(ps)| + 1))
    decreases |buf| - pos
  {
    hide ReadDefinite, Piece.Encoding;
    if buf[pos] == BREAK {
      ps := [];
      assert buf[pos..pos + 1] == [0xFF];
    } else {
      var p := ReadPieceIsWire(buf, pos);
      var rest := ReadChunksIsWire(buf, ReadDefinite(buf, pos).value.next);
      ps := [p] + rest;
      assert ps[1..] == rest;
      assert Pieces(ps) + [0xFF] == p.Encoding() + (Pieces(rest) + [0xFF]);
      StandsJoins(buf, pos, p.Encoding(), Pieces(rest) + [0xFF]);
    }
  }

  // ---------------------------------------------------------------- one item

  lemma ReadNumberStanding(buf: seq<byte>, pos: nat, n: nat, w: Width)
    requires Fits(w, n) && Stands(buf, pos, HeadBytes(0x00, n, w))
    ensures pos < |buf| && buf[pos] != BREAK && buf[pos] != INDEFINITE_STRING
    ensures ReadDefinite(buf, pos) == Some(ItemRead(UInt(n), pos + |HeadBytes(0x00, n, w)|))
  {
    hide HeadBytes, ReadHead;
    ReadHeadStanding(buf, pos, 0, n, w);
  }

  lemma ReadValueStanding(buf: seq<byte>, pos: nat, v: byte)
    requires (v < 20 || v >= 32) && Stands(buf, pos, Value(v).Encoding())
    ensures pos < |buf| && buf[pos] != BREAK && buf[pos] != INDEFINITE_STRING
    ensures ReadDefinite(buf, pos) == Some(ItemRead(Simple(v), pos + |Value(v).Encoding()|))
  {
    var w := if v < 20 then Immediate else One;
    assert Value(v).Encoding() == HeadBytes(0xE0, v, w);
    FirstByte(buf, pos, Value(v).Encoding());
    ReadHeadStanding(buf, pos, 7, v, w);
    hide ReadHead;
  }

  // Whatever its form, an item reads as what it stands for.
  lemma ReadForm(buf: seq<byte>, pos: nat, f: Form)
    requires f.Valid() && Stands(buf, pos, f.Encoding())
    ensures pos < |buf| && buf[pos] != BREAK
    ensures ReadItem(buf, pos) == Some(ItemRead(f.Meaning(), pos + |f.Encoding()|))
  {
    hide ReadDefinite, ReadChunks, HeadBytes, Pieces, Joined, Piece.Encoding;
    match f {
      case Number(n, w) => ReadNumberStanding(buf, pos, n, w);
      case Whole(p) => ReadPieceStanding(buf, pos, p);
      case Cut(ps) =>
        FirstByte(buf, pos, f.Encoding());
        StandsSplits(buf, pos, [0x5F], Pieces(ps) + [0xFF]);
        ReadPiecesStanding(buf, pos + 1, ps);
      case Value(v) => ReadValueStanding(buf, pos, v);
    }
  }

  lemma ReadValueIsWire(buf: seq<byte>, pos: nat, v: byte)
    requires ReadDefinite(buf, pos).Some? && ReadDefinite(buf, pos).value.item == Simple(v)
    ensures Value(v).Valid() && Stands(buf, pos, Value(v).Encoding())
    ensures ReadDefinite(buf, pos).value.next == pos + |Value(v).Encoding()|
  {
    var w := ReadHeadIsWire(buf, pos);
    hide ReadHead, Digits2, Digits4, Digits8;
    assert Value(v).Encoding() == HeadBytes(0xE0, v, w);
  }

  lemma ReadDefiniteIsWire(buf: seq<byte>, pos: nat) returns (f: Form)
    requires ReadDefinite(buf, pos).Some?
    ensures f.Valid() && Stands(buf, pos, f.Encoding())
    ensures ReadDefinite(buf, pos) == Some(ItemRead(f.Meaning(), pos + |f.Encoding()|))
  {
    hide ReadHead, HeadBytes, Stands;
    var item := ReadDefinite(buf, pos).value.item;
    if item.Bytes? {
      var p := ReadPieceIsWire(buf, pos);
      f := Whole(p);
    } else if item.UInt? {
      var w := ReadHeadIsWire(buf, pos);
      f := Number(item.n, w);
    } else {
      ReadValueIsWire(buf, pos, item.v);
      f := Value(item.v);
    }
  }

  // And nothing else reads as an item.
  lemma ReadItemIsWire(buf: seq<byte>, pos: nat) returns (f: Form)
    requires ReadItem(buf, pos).Some?
    ensures f.Valid() && Stands(buf, pos, f.Encoding())
    ensures ReadItem(buf, pos) == Some(ItemRead(f.Meaning(), pos + |f.Encoding()|))
  {
    hide ReadDefinite, ReadChunks, Pieces, Joined;
    if pos < |buf| && buf[pos] == INDEFINITE_STRING {
      var ps := ReadChunksIsWire(buf, pos + 1);
      f := Cut(ps);
      assert buf[pos..pos + 1] == [0x5F];
      StandsJoins(buf, pos, [0x5F], Pieces(ps) + [0xFF]);
    } else {
      f := ReadDefiniteIsWire(buf, pos);
    }
  }

  // ---------------------------------------------------------------- arrays

  predicate AllForms(fs: seq<Form>) {
    forall f :: f in fs ==> f.Valid()
  }

  function Forms(fs: seq<Form>): seq<byte>
    requires AllForms(fs)
  {
    if fs == [] then [] else fs[0].Encoding() + Forms(fs[1..])
  }

  function Meanings(fs: seq<Form>): (items: seq<Item>)
    ensures |items| == |fs|
    ensures forall i :: 0 <= i < |fs| ==> items[i] == fs[i].Meaning()
  {
    if fs == [] then [] else [fs[0].Meaning()] + Meanings(fs[1..])
  }

  // An array as it can stand on the wire: with a count, in any width, or up to a break.
  datatype Array = Counted(w: Width, forms: seq<Form>) | Unbounded(forms: seq<Form>) {
    predicate Valid() {
      AllForms(forms) && (Counted? ==> Fits(w, |forms|))
    }

    function Encoding(): seq<byte>
      requires Valid()
    {
      if Counted? then HeadBytes(0x80, |forms|, w) + Forms(forms) else [0x9F] + (Forms(forms) + [0xFF])
    }

    // It stands at the start of a buffer, and for these items.
    predicate Writes(buf: seq<byte>, items: seq<Item>) {
      Valid() && Stands(buf, 0, Encoding()) && Meanings(forms) == items
    }
  }

  lemma {:induction false} ReadForms(buf: seq<byte>, pos: nat, fs: seq<Form>)
    requires AllForms(fs) && Stands(buf, pos, Forms(fs))
    ensures ReadItems(buf, pos, |fs|) == Some(Meanings(fs))
    decreases |fs|
  {
    hide ReadItem, Stands, Form.Encoding, Form.Meaning, Form.Valid;
    if fs != [] {
      StandsSplits(buf, pos, fs[0].Encoding(), Forms(fs[1..]));
      ReadForm(buf, pos, fs[0]);
      ReadForms(buf, pos + |fs[0].Encoding()|, fs[1..]);
    }
  }

  lemma {:induction false} ReadFormsToBreak(buf: seq<byte>, pos: nat, fs: seq<Form>)
    requires AllForms(fs) && Stands(buf, pos, Forms(fs) + [0xFF])
    ensures ReadToBreak(buf, pos) == Some(Meanings(fs))
    decreases |fs|
  {
    hide ReadItem, Stands, Form.Encoding, Form.Meaning, Form.Valid;
    if fs == [] {
      assert Forms(fs) + [0xFF] == [0xFF];
      FirstByte(buf, pos, [0xFF]);
    } else {
      var rest := Forms(fs[1..]) + [0xFF];
      assert Forms(fs) + [0xFF] == fs[0].Encoding() + rest;
      StandsSplits(buf, pos, fs[0].Encoding(), rest);
      ReadForm(buf, pos, fs[0]);
      ReadFormsToBreak(buf, pos + |fs[0].Encoding()|, fs[1..]);
    }
  }

  lemma FormsStep(f: Form, rest: seq<Form>)
    requires f.Valid() && AllForms(rest)
    ensures AllForms([f] + rest) && Forms([f] + rest) == f.Encoding() + Forms(rest)
    ensures Meanings([f] + rest) == [f.Meaning()] + Meanings(rest)
  {
    hide Form.Encoding, Form.Meaning, Form.Valid;
    assert ([f] + rest)[1..] == rest;
  }

  lemma {:induction false} ReadItemsIsWire(buf: seq<byte>, pos: nat, count: nat) returns (fs: seq<Form>)
    requires pos <= |buf| && ReadItems(buf, pos, count).Some?
    ensures AllForms(fs) && |fs| == count && Stands(buf, pos, Forms(fs))
    ensures ReadItems(buf, pos, count) == Some(Meanings(fs))
    decreases count
  {
    hide ReadItem, Form.Encoding, Form.Meaning, Form.Valid;
    if count == 0 {
      fs := [];
    } else {
      var f := ReadItemIsWire(buf, pos);
      var rest := ReadItemsIsWire(buf, ReadItem(buf, pos).value.next, count - 1);
      fs := [f] + rest;
      FormsStep(f, rest);
      StandsJoins(buf, pos, f.Encoding(), Forms(rest));
    }
  }

  lemma {:induction false} ReadToBreakIsWire(buf: seq<byte>, pos: nat) returns (fs: seq<Form>)
    requires ReadToBreak(buf, pos).Some?
    ensures AllForms(fs) && Stands(buf, pos, Forms(fs) + [0xFF])
    ensures ReadToBreak(buf, pos) == Some(Meanings(fs))
    decreases |buf| - pos
  {
    hide ReadItem, Form.Encoding, Form.Meaning, Form.Valid;
    if buf[pos] == BREAK {
      fs := [];
      assert buf[pos..pos + 1] == [0xFF];
    } else {
      var f := ReadItemIsWire(buf, pos);
      var rest := ReadToBreakIsWire(buf, ReadItem(buf, pos).value.next);
      fs := [f] + rest;
      FormsStep(f, rest);
      assert Forms(fs) + [0xFF] == f.Encoding() + (Forms(rest) + [0xFF]);
      StandsJoins(buf, pos, f.Encoding(), Forms(rest) + [0xFF]);
    }
  }

  // Reading takes every form of an array.
  lemma ReadArrayForm(buf: seq<byte>, a: Array, items: seq<Item>)
    requires a.Writes(buf, items)
    ensures ReadArray(buf) == Some(items)
  {
    hide HeadBytes, ReadHead, ReadItems, ReadToBreak, Forms, Meanings;
    FirstByteOfArray(buf, a);
    if a.Counted? {
      StandsSplits(buf, 0, HeadBytes(0x80, |a.forms|, a.w), Forms(a.forms));
      ReadHeadStanding(buf, 0, 4, |a.forms|, a.w);
      ReadForms(buf, |HeadBytes(0x80, |a.forms|, a.w)|, a.forms);
    } else {
      StandsSplits(buf, 0, [0x9F], Forms(a.forms) + [0xFF]);
      ReadFormsToBreak(buf, 1, a.forms);
    }
  }

  lemma FirstByteOfArray(buf: seq<byte>, a: Array)
    requires a.Valid() && Stands(buf, 0, a.Encoding())
    ensures buf != [] && (buf[0] == INDEFINITE_ARRAY <==> a.Unbounded?)
  {
    FirstByte(buf, 0, a.Encoding());
  }

  // And nothing else.
  lemma ReadArrayIsWire(buf: seq<byte>) returns (a: Array)
    requires ReadArray(buf).Some?
    ensures a.Writes(buf, ReadArray(buf).value)
  {
    hide HeadBytes, ReadHead, ReadItems, ReadToBreak, Forms, Meanings;
    if buf != [] && buf[0] == INDEFINITE_ARRAY {
      var fs := ReadToBreakIsWire(buf, 1);
      assert buf[0..1] == [0x9F];
      StandsJoins(buf, 0, [0x9F], Forms(fs) + [0xFF]);
      a := Unbounded(fs);
    } else {
      var w := ReadHeadIsWire(buf, 0);
      var h := ReadHead(buf, 0).value;
      var fs := ReadItemsIsWire(buf, h.next, h.argument);
      StandsJoins(buf, 0, HeadBytes(0x80, |fs|, w), Forms(fs));
      a := Counted(w, fs);
    }
  }

  // Reading a buffer gives some items if and only if a form of the array of these items stands at
  // its start.
  lemma ReadArrayIff(buf: seq<byte>, items: seq<Item>)
    ensures ReadArray(buf) == Some(items) <==> exists a: Array :: a.Writes(buf, items)
  {
    hide ReadArray, Array.Writes;
    if ReadArray(buf) == Some(items) {
      var a := ReadArrayIsWire(buf);
    }
    forall a: Array | a.Writes(buf, items) ensures ReadArray(buf) == Some(items) {
      ReadArrayForm(buf, a, items);
    }
  }

  // ---------------------------------------------------------------- what the encoders write

  // The shortest width of an argument.
  function Shortest(n: nat): Width {
    if n < 24 then Immediate else if n < 0x100 then One else if n < 0x1_0000 then Two
    else if n < 0x1_0000_0000 then Four else Eight
  }

  lemma HeadIsShortest(major: nat, n: nat)
    requires major < 8 && n < U64
    ensures Head(major, n) == HeadBytes(32 * major, n, Shortest(n))
  {
    HeadParts(major, n);
    hide BigEndian, FromBigEndian, Digits2, Digits4, Digits8, Capacity;
    var w := Shortest(n);
    assert HeadBytes(32 * major, n, w) == [32 * major + Info(n)] + Argument(n, w);
    if n < 24 {
      assert BigEndian(n, 0) == Argument(n, w);
    } else {
      BigEndianRoundTrip(n, ArgumentWidth(Info(n)));
      ArgumentAndValue(BigEndian(n, ArgumentWidth(Info(n))), w, n);
    }
  }

  function ShortestForm(i: Item): Form
    requires Encodable(i)
  {
    match i
    case UInt(n) => Number(n, Shortest(n))
    case Bytes(s) => Whole(Piece(s, Shortest(|s|)))
    case Simple(v) => Value(v)
  }

  lemma EncodeItemIsShortest(i: Item)
    requires Encodable(i)
    ensures ShortestForm(i).Valid() && ShortestForm(i).Meaning() == i
    ensures EncodeItem(i) == ShortestForm(i).Encoding()
  {
    hide Head, HeadBytes;
    match i {
      case UInt(n) => HeadIsShortest(0, n);
      case Bytes(s) => HeadIsShortest(2, |s|);
      case Simple(v) =>
        HeadIsShortest(7, v);
        ShortHead(v);
    }
  }

  lemma ShortHead(v: byte)
    requires v < 20
    ensures HeadBytes(0xE0, v, Shortest(v)) == [0xE0 + v]
  {
  }

  lemma {:induction false} EncodeItemsIsShortest(items: seq<Item>) returns (fs: seq<Form>)
    requires AllEncodable(items)
    ensures AllForms(fs) && Meanings(fs) == items && Forms(fs) == EncodeItems(items)
    decreases |items|
  {
    hide EncodeItem, Encodable, Form.Encoding, Form.Meaning, Form.Valid, ShortestForm;
    if items == [] {
      fs := [];
    } else {
      var rest := EncodeItemsIsShortest(items[1..]);
      EncodeItemIsShortest(items[0]);
      FormsStep(ShortestForm(items[0]), rest);
      fs := [ShortestForm(items[0])] + rest;
    }
  }

  // What the encoder writes is a form of its items.
  lemma EncodeArrayIsForm(items: seq<Item>, after: seq<byte>) returns (a: Array)
    requires AllEncodable(items) && |items| < U64
    ensures a.Writes(EncodeArray(items) + after, items)
  {
    hide Head, HeadBytes, Forms, Meanings, EncodeItems, AllForms, AllEncodable;
    var fs := EncodeItemsIsShortest(items);
    HeadIsShortest(4, |items|);
    a := Counted(Shortest(|items|), fs);
    assert (EncodeArray(items) + after)[0..|EncodeArray(items)|] == EncodeArray(items);
  }

  // Reading an encoded array gives back its items, whatever follows it in the buffer.
  lemma ReadArrayOfArray(items: seq<Item>, after: seq<byte>)
    requires AllEncodable(items) && |items| < U64
    ensures ReadArray(EncodeArray(items) + after) == Some(items)
  {
    hide EncodeArray, ReadArray, Array.Writes, AllEncodable;
    var a := EncodeArrayIsForm(items, after);
    ReadArrayForm(EncodeArray(items) + after, a, items);
  }

  // An array of fewer than 24 forms, in its shortest form, at the start of a buffer.
  lemma ShortArrayStands(fs: seq<Form>, after: seq<byte>)
    requires AllForms(fs) && |fs| < 24
    ensures Counted(Immediate, fs).Writes([0x80 + |fs|] + Forms(fs) + after, Meanings(fs))
  {
    hide Forms, Meanings, Form.Valid;
    var a := Counted(Immediate, fs);
    assert a.Encoding() == [0x80 + |fs|] + Forms(fs);
    assert (a.Encoding() + after)[0..|a.Encoding()|] == a.Encoding();
  }

  lemma {:induction false} FormsConcat(a: seq<Form>, b: seq<Form>)
    requires AllForms(a) && AllForms(b)
    ensures AllForms(a + b) && Forms(a + b) == Forms(a) + Forms(b)
    decreases |a|
  {
    hide Form.Encoding, Form.Valid;
    if a == [] {
      assert a + b == b;
    } else {
      assert (a + b)[1..] == a[1..] + b;
      FormsConcat(a[1..], b);
    }
  }

  lemma OneForm(f: Form)
    requires f.Valid()
    ensures AllForms([f]) && Forms([f]) == f.Encoding()
  {
    hide Form.Encoding, Form.Valid;
    assert [f][1..] == [];
  }

  lemma FormsAppend(fs: seq<Form>, f: Form)
    requires AllForms(fs) && f.Valid()
    ensures AllForms(fs + [f]) && Forms(fs + [f]) == Forms(fs) + f.Encoding()
  {
    hide Form.Encoding, Form.Valid, Forms;
    OneForm(f);
    FormsConcat(fs, [f]);
  }

  lemma ThreeForms(f: Form, g: Form, h: Form)
    requires f.Valid() && g.Valid() && h.Valid()
    ensures AllForms([f, g, h]) && Forms([f, g, h]) == f.Encoding() + g.Encoding() + h.Encoding()
  {
    hide Form.Encoding, Form.Valid, Forms;
    OneForm(f);
    FormsAppend([f], g);
    FormsAppend([f] + [g], h);
    assert [f] + [g] + [h] == [f, g, h];
  }

  // Nine forms, three by three.
  lemma NineForms(a: seq<Form>, b: seq<Form>, c: seq<Form>)
    requires AllForms(a) && AllForms(b) && AllForms(c) && |a| == |b| == |c| == 3
    ensures AllForms(a + b + c) && Forms(a + b + c) == Forms(a) + Forms(b) + Forms(c)
  {
    hide AllForms, Forms;
    FormsConcat(a, b);
    FormsConcat(a + b, c);
  }
}
