// Learning root-certified keys from identity responses, persisting them in files, and reading
// the files back after a reboot.
module IdentityStore {
  import opened Types
  import opened Crypto
  import Cbor
  import opened IdentityCodec

  const ROOT_KID: NodeId := [0, 0, 3, 0]
  const MAX_IDENTITY_SIZE: nat := 256
  const DEVICE_TYPE_GATE: byte := 0
  const DEVICE_TYPE_SENSEMATE: byte := 1

  // ---------------------------------------------------------------- file names

  function Decimal(n: nat): (d: string)
    ensures |d| > 0
    ensures |d| == 1 <==> n < 10
  {
    var digit := "0123456789"[n % 10];
    if n < 10 then [digit] else Decimal(n / 10) + [digit]
  }

  lemma {:induction false} DecimalIsInjective(m: nat, n: nat)
    ensures Decimal(m) == Decimal(n) ==> m == n
    decreases m
  {
    var a, b := Decimal(m), Decimal(n);
    assert a[|a| - 1] == "0123456789"[m % 10] && b[|b| - 1] == "0123456789"[n % 10];
    if a == b {
      assert m % 10 == n % 10;
      if m >= 10 {
        assert a[..|a| - 1] == Decimal(m / 10) && b[..|b| - 1] == Decimal(n / 10);
        DecimalIsInjective(m / 10, n / 10);
      }
    }
  }

  // Gates and mates get a file named after the last byte of their id; the first two bytes of
  // the id play no part. Other device types get none.
  function FileName(kid: NodeId): Option<string> {
    if kid[2] == DEVICE_TYPE_GATE then Some("sensegate-" + Decimal(kid[3]))
    else if kid[2] == DEVICE_TYPE_SENSEMATE then Some("sensemate-" + Decimal(kid[3]))
    else None
  }

  lemma FileNamesCollideIff(a: NodeId, b: NodeId)
    requires FileName(a).Some? && FileName(b).Some?
    ensures FileName(a) == FileName(b) <==> a[2..] == b[2..]
  {
    var fa, fb := FileName(a).value, FileName(b).value;
    assert fa[..10] == (if a[2] == 0 then "sensegate-" else "sensemate-");
    assert fb[..10] == (if b[2] == 0 then "sensegate-" else "sensemate-");
    assert fa[10..] == Decimal(a[3]) && fb[10..] == Decimal(b[3]);
    var gate, mate := "sensegate-", "sensemate-";
    assert gate[5] != mate[5];
    DecimalIsInjective(a[3], b[3]);
    assert a[2..] == [a[2], a[3]] && b[2..] == [b[2], b[3]];
    if fa == fb {
      assert a[2] == b[2] && a[3] == b[3];
    }
    if a[2..] == b[2..] {
      assert a[2..][0] == b[2..][0] && a[2..][1] == b[2..][1];
    }
  }

  // A decimal numeral without leading zeros.
  predicate IsNumeral(d: string) {
    d != [] && (forall c :: c in d ==> '0' <= c <= '9') && (|d| > 1 ==> d[0] != '0')
  }

  function NumeralValue(d: string): nat {
    if d == [] then 0
    else
      var c := d[|d| - 1];
      10 * NumeralValue(d[..|d| - 1]) + if '0' <= c <= '9' then c as int - '0' as int else 0
  }

  lemma {:induction false} DecimalIsNumeral(n: nat)
    ensures IsNumeral(Decimal(n)) && NumeralValue(Decimal(n)) == n
    ensures n > 0 ==> Decimal(n)[0] != '0'
    decreases n
  {
    if n >= 10 {
      DecimalIsNumeral(n / 10);
      assert Decimal(n)[..|Decimal(n)| - 1] == Decimal(n / 10);
    } else {
      assert Decimal(n)[..0] == [];
    }
  }

  // The file of a gate or a mate, and that no other device has one.
  lemma {:induction false} FileNameIs(kid: NodeId)
    ensures FileName(kid).Some? <==> kid[2] == 0 || kid[2] == 1
    ensures FileName(kid).Some? ==>
              exists d ::
                && IsNumeral(d) && NumeralValue(d) == kid[3]
                && FileName(kid).value == (if kid[2] == 0 then "sensegate-" else "sensemate-") + d
  {
    DecimalIsNumeral(kid[3]);
    hide Decimal, IsNumeral, NumeralValue;
    assert FileName(kid).Some? ==>
        FileName(kid).value == (if kid[2] == 0 then "sensegate-" else "sensemate-") + Decimal(kid[3]);
  }

  // ---------------------------------------------------------------- files

  // Opening without truncation and writing from the start leaves the old tail in place.
  function Overlay(present: seq<byte>, data: seq<byte>): seq<byte> {
    if |present| > |data| then data + present[|data|..] else data
  }

  lemma OverlayIsBytewise(present: seq<byte>, data: seq<byte>)
    ensures |Overlay(present, data)| == if |present| > |data| then |present| else |data|
    ensures forall i :: 0 <= i < |Overlay(present, data)| ==>
                          Overlay(present, data)[i] == if i < |data| then data[i] else present[i]
  {
  }

  // What a file of the valid-identities directory reads back as.
  function ReadIdentity(content: seq<byte>): Option<Identity> {
    if |content| > MAX_IDENTITY_SIZE then None
    else
      match DecodeSigned(content)
      case None => None
      case Some(s) => DecodeIdentity(s.payload)
  }

  // A file reads back as an identity if and only if it is no longer than 256 bytes and starts with
  // a signed identity, in any form, whose payload starts with the identity, in any form.
  lemma {:induction false} ReadIdentityIff(content: seq<byte>, id: Identity)
    ensures ReadIdentity(content) == Some(id) <==>
            |content| <= 256 && exists s: SignedIdentity ::
              SaysPair(content, s.payload, s.signature) && SaysPair(s.payload, id.kid, id.key)
  {
    hide DecodeSigned, DecodeIdentity, SaysPair;
    forall s: SignedIdentity
      ensures DecodeSigned(content) == Some(s) <==> SaysPair(content, s.payload, s.signature)
      ensures DecodeIdentity(s.payload) == Some(id) <==> SaysPair(s.payload, id.kid, id.key)
    {
      SignedIff(content, s);
      IdentityIff(s.payload, id);
    }
  }

  type Files = map<string, seq<byte>>

  // Every file has the one size of a signed identity, so an overwrite leaves no tail, and holds
  // the identity its name stands for.
  ghost predicate WellKept(files: Files) {
    forall f :: f in files ==>
                  && |files[f]| == SIGNED_IDENTITY_LEN
                  && ReadIdentity(files[f]).Some?
                  && FileName(ReadIdentity(files[f]).value.kid) == Some(f)
  }

  // How a write to a file goes: the file cannot be opened, writing to it is refused, or it ends
  // after some bytes without being reported as failed.
  datatype FileWrite = OpenFails | WriteFails | Stops(count: nat) | Complete

  // Opening creates the file if it is not there.
  function Writing(files: Files, file: string, data: seq<byte>, w: FileWrite): Files {
    var present := if file in files then files[file] else [];
    match w
    case OpenFails => files
    case WriteFails => files[file := present]
    case Stops(n) => files[file := Overlay(present, if n < |data| then data[..n] else data)]
    case Complete => files[file := Overlay(present, data)]
  }

  // The bytes of a write that get into the file.
  function WrittenCount(data: seq<byte>, w: FileWrite): nat {
    match w
    case Stops(n) => if n < |data| then n else |data|
    case Complete => |data|
    case _ => 0
  }

  // After a write the file holds the bytes written, and behind them what it held there before;
  // no other file changes. A file that cannot be opened is not created.
  lemma {:induction false} WritingIsBytewise(files: Files, file: string, data: seq<byte>, w: FileWrite)
    ensures
      var files' := Writing(files, file, data, w);
      var present := if file in files then files[file] else [];
      var n := WrittenCount(data, w);
      && (w.OpenFails? ==> files' == files)
      && (!w.OpenFails? ==>
            && file in files' && |files'[file]| == (if |present| > n then |present| else n)
            && (forall i :: 0 <= i < |files'[file]| ==> files'[file][i] == if i < n then data[i] else present[i]))
      && (forall f :: f != file ==> (f in files' <==> f in files) && (f in files ==> files'[f] == files[f]))
  {
    var present := if file in files then files[file] else [];
    OverlayIsBytewise(present, data[..WrittenCount(data, w)]);
    assert data[..|data|] == data;
  }

  predicate Reported(w: FileWrite) {
    w.OpenFails? || w.WriteFails?
  }

  function Persist(files: Files, s: SignedIdentity, file: string): Files {
    Writing(files, file, EncodeSigned(s), Complete)
  }

  // Whatever the payload encoding, a persisted identity reads back as the one that was learned.
  lemma PersistKeeps(files: Files, s: SignedIdentity, id: Identity)
    requires WellKept(files)
    requires DecodeIdentity(s.payload) == Some(id) && FileName(id.kid).Some?
    ensures
      var files' := Persist(files, s, FileName(id.kid).value);
      WellKept(files') && ReadIdentity(files'[FileName(id.kid).value]) == Some(id)
  {
    hide EncodeSigned, DecodeSigned, DecodeIdentity, FileName;
    EncodedSizes(id, s, IdResponse);
    IdentityRoundTrips(id, s, IdResponse, []);
    assert EncodeSigned(s) + [] == EncodeSigned(s);
  }

  // ---------------------------------------------------------------- learning

  // Public keys on file and identity files, with the history of keys learned since setup.
  datatype Ids = Ids(keys: KeyRing, files: Files, learned: map<NodeId, PublicKey>)

  datatype LearnOutcome = LearnOutcome(result: int, ids: Ids)

  // What the key store and the file system do with what they are given.
  datatype Storage = Storage(keyAccepted: bool, file: FileWrite)

  const RELIABLE := Storage(true, Complete)

  // An identity response. A key that was accepted is used from then on, although the response is
  // reported as failed if its identity cannot be persisted, which is so for every other device
  // type.
  function LearnOn(kidOf: KidReader, issued: set<Signature>, ids: Ids, message: seq<byte>,
                   storage: Storage): LearnOutcome
  {
    match DecodeIdMessage(message)
    case None => LearnOutcome(-1, ids)
    case Some((_, s)) =>
      if !Verifies(kidOf, issued, ids.keys, ROOT_KID, IdentityPayload(s.payload), s.signature) then
        LearnOutcome(-1, ids)
      else match DecodeIdentity(s.payload)
           case None => LearnOutcome(-1, ids)
           case Some(id) =>
             if id.kid in ids.keys && ids.keys[id.kid] == id.key then LearnOutcome(0, ids)
             else if !storage.keyAccepted then LearnOutcome(-1, ids)
             else
               var ids' := ids.(keys := ids.keys[id.kid := id.key], learned := ids.learned[id.kid := id.key]);
               match FileName(id.kid)
               case None => LearnOutcome(-1, ids')
               case Some(file) =>
                 LearnOutcome(if Reported(storage.file) then -1 else 0,
                              ids'.(files := Writing(ids.files, file, EncodeSigned(s), storage.file)))
  }

  // An identity the root signed, as the payload of a response.
  ghost predicate IsCertified(kidOf: KidReader, issued: set<Signature>, keys: KeyRing, message: seq<byte>,
                              id: Identity)
  {
    exists t: IdMessageType, s: SignedIdentity ::
      && DecodeIdMessage(message) == Some((t, s)) && DecodeIdentity(s.payload) == Some(id)
      && kidOf(s.signature) == Some([0, 0, 3, 0]) && [0, 0, 3, 0] in keys
      && Signature(keys[[0, 0, 3, 0]], IdentityPayload(s.payload), s.signature) in issued
  }

  // A response succeeds, and changes keys and files, for an identity the root signed and for
  // nothing else.
  lemma {:induction false} LearnOnReports(kidOf: KidReader, issued: set<Signature>, ids: Ids, message: seq<byte>,
                                          storage: Storage, id: Identity)
    ensures
      var outcome := LearnOn(kidOf, issued, ids, message, storage);
      && (IsCertified(kidOf, issued, ids.keys, message, id) ==>
            var known := id.kid in ids.keys && ids.keys[id.kid] == id.key;
            var named := id.kid[2] == 0 || id.kid[2] == 1;
            && (outcome.result == 0 <==>
                known || (storage.keyAccepted && named && !storage.file.OpenFails? && !storage.file.WriteFails?))
            && (outcome.result == 0 || outcome.result == -1)
            && outcome.ids.keys == (if known || !storage.keyAccepted then ids.keys else ids.keys[id.kid := id.key])
            && (known || !storage.keyAccepted || !named ==> outcome.ids.files == ids.files))
      && ((forall id' :: !IsCertified(kidOf, issued, ids.keys, message, id')) ==> outcome == LearnOutcome(-1, ids))
  {
    hide DecodeIdMessage, DecodeIdentity, EncodeSigned, Writing, Decimal;
    var decoded := DecodeIdMessage(message);
    if decoded.Some? {
      var (t, s) := decoded.value;
      assert DecodeIdentity(s.payload).Some?
             && Verifies(kidOf, issued, ids.keys, ROOT_KID, IdentityPayload(s.payload), s.signature) ==>
          IsCertified(kidOf, issued, ids.keys, message, DecodeIdentity(s.payload).value);
    }
  }

  function Learn(kidOf: KidReader, issued: set<Signature>, ids: Ids, message: seq<byte>): LearnOutcome {
    LearnOn(kidOf, issued, ids, message, RELIABLE)
  }

  // A run of identity responses; each comes with the signatures made so far.
  datatype Response = Response(issued: set<Signature>, message: seq<byte>)

  function LearnAll(kidOf: KidReader, ids: Ids, responses: seq<Response>): Ids {
    if responses == [] then ids
    else
      var last := responses[|responses| - 1];
      Learn(kidOf, last.issued, LearnAll(kidOf, ids, responses[..|responses| - 1]), last.message).ids
  }

  // After setup: keys installed, nothing learned, no identity files.
  predicate IsSetup(ids: Ids) {
    ids.files == map[] && ids.learned == map[]
  }

  ghost predicate IdsInvariant(setup: KeyRing, ids: Ids) {
    && WellKept(ids.files)
    && (forall kid :: kid in ids.keys <==> kid in setup || kid in ids.learned)
    && (forall kid :: kid in ids.learned ==> ids.keys[kid] == ids.learned[kid])
    && (forall kid :: kid in setup && kid !in ids.learned ==> ids.keys[kid] == setup[kid])
    && (forall f :: f in ids.files ==>
                      var id := ReadIdentity(ids.files[f]).value;
                      id.kid in ids.learned && ids.learned[id.kid] == id.key)
    && (forall kid :: kid in ids.learned && FileName(kid).Some? ==> FileName(kid).value in ids.files)
  }

  lemma LearnKeepsInvariant(kidOf: KidReader, issued: set<Signature>, setup: KeyRing, ids: Ids,
                            message: seq<byte>)
    requires IdsInvariant(setup, ids)
    ensures IdsInvariant(setup, Learn(kidOf, issued, ids, message).ids)
  {
    hide EncodeSigned, DecodeIdentity, ReadIdentity, FileName, Verifies, DecodeIdMessage, Writing;
    var ids' := Learn(kidOf, issued, ids, message).ids;
    if ids' != ids {
      var s := DecodeIdMessage(message).value.1;
      var id := DecodeIdentity(s.payload).value;
      if FileName(id.kid).Some? {
        PersistKeeps(ids.files, s, id);
        PersistTouchesOne(ids.files, s, FileName(id.kid).value);
      }
    }
  }

  lemma PersistTouchesOne(files: Files, s: SignedIdentity, file: string)
    ensures Persist(files, s, file).Keys == files.Keys + {file}
    ensures forall f :: f in files && f != file ==> Persist(files, s, file)[f] == files[f]
  {
  }

  lemma {:induction false} LearnAllKeepsInvariant(kidOf: KidReader, ids: Ids, responses: seq<Response>)
    requires IsSetup(ids)
    ensures IdsInvariant(ids.keys, LearnAll(kidOf, ids, responses))
    decreases |responses|
  {
    if responses != [] {
      hide Learn, IdsInvariant;
      var last := responses[|responses| - 1];
      var before := LearnAll(kidOf, ids, responses[..|responses| - 1]);
      LearnAllKeepsInvariant(kidOf, ids, responses[..|responses| - 1]);
      LearnKeepsInvariant(kidOf, last.issued, ids.keys, before, last.message);
    }
  }

  // ---------------------------------------------------------------- reading back

  // The files hold exactly the learned keys.
  ghost predicate FilesHold(files: Files, learned: map<NodeId, PublicKey>) {
    forall id: Identity ::
      (exists f :: f in files && ReadIdentity(files[f]) == Some(id)) <==>
      id.kid in learned && learned[id.kid] == id.key
  }

  // All learned ids are gates or mates and no two agree in their last two bytes.
  predicate Nameable(learned: map<NodeId, PublicKey>) {
    && (forall kid :: kid in learned ==> kid[2] == DEVICE_TYPE_GATE || kid[2] == DEVICE_TYPE_SENSEMATE)
    && (forall a, b :: a in learned && b in learned && a[2..] == b[2..] ==> a == b)
  }

  lemma {:induction false} InvariantGivesAgreement(setup: KeyRing, ids: Ids)
    requires IdsInvariant(setup, ids)
    ensures FilesHold(ids.files, ids.learned) <==> Nameable(ids.learned)
  {
    hide ReadIdentity;
    var files, learned := ids.files, ids.learned;
    if Nameable(learned) {
      forall id: Identity | id.kid in learned && learned[id.kid] == id.key
        ensures exists f :: f in files && ReadIdentity(files[f]) == Some(id)
      {
        var f := FileName(id.kid).value;
        var held := ReadIdentity(files[f]).value;
        FileNamesCollideIff(held.kid, id.kid);
        assert held == id;
        assert f in files && ReadIdentity(files[f]) == Some(id);
      }
    }
    if FilesHold(files, learned) {
      forall kid | kid in learned ensures FileName(kid).Some? {
        var f := FileOf(files, learned, kid);
      }
      forall a, b | a in learned && b in learned && a[2..] == b[2..] ensures a == b {
        var fa := FileOf(files, learned, a);
        var fb := FileOf(files, learned, b);
        FileNamesCollideIff(a, b);
      }
    }
  }

  lemma FileOf(files: Files, learned: map<NodeId, PublicKey>, kid: NodeId) returns (f: string)
    requires WellKept(files) && FilesHold(files, learned) && kid in learned
    ensures f in files && FileName(kid) == Some(f) && ReadIdentity(files[f]) == Some(Identity(kid, learned[kid]))
  {
    hide ReadIdentity, FileName;
    var id := Identity(kid, learned[kid]);
    assert id.kid in learned && learned[id.kid] == id.key;
    f :| f in files && ReadIdentity(files[f]) == Some(id);
  }

  // After any run of identity responses, genuine or not, reading the files back gives exactly
  // the learned keys if and only if every learned id is a gate or a mate and no two of them
  // agree in their last two bytes.
  lemma {:induction false} ReloadAgreesIff(kidOf: KidReader, ids: Ids, responses: seq<Response>)
    requires IsSetup(ids)
    ensures
      var after := LearnAll(kidOf, ids, responses);
      FilesHold(after.files, after.learned) <==> Nameable(after.learned)
  {
    hide IdsInvariant, FilesHold, Nameable;
    LearnAllKeepsInvariant(kidOf, ids, responses);
    InvariantGivesAgreement(ids.keys, LearnAll(kidOf, ids, responses));
  }

  // The identity response of a device whose identity the root signed.
  predicate IsCertificate(kidOf: KidReader, issued: set<Signature>, keys: KeyRing, id: Identity, s: SignedIdentity) {
    && s.payload == EncodeIdentity(id)
    && ROOT_KID in keys
    && kidOf(s.signature) == Some(ROOT_KID)
    && Signature(keys[ROOT_KID], IdentityPayload(s.payload), s.signature) in issued
  }

  predicate IsNews(keys: KeyRing, id: Identity) {
    id.kid in keys ==> keys[id.kid] != id.key
  }

  // What a genuine response that brings a new key does.
  lemma CertificateIsLearnedOn(kidOf: KidReader, issued: set<Signature>, ids: Ids, id: Identity, s: SignedIdentity,
                               w: FileWrite)
    requires IsCertificate(kidOf, issued, ids.keys, id, s) && IsNews(ids.keys, id)
    ensures
      var outcome := LearnOn(kidOf, issued, ids, EncodeIdMessage(IdResponse, s), Storage(true, w));
      && outcome.result == (if FileName(id.kid).Some? && !Reported(w) then 0 else -1)
      && outcome.ids.keys == ids.keys[id.kid := id.key]
      && outcome.ids.learned == ids.learned[id.kid := id.key]
      && outcome.ids.files ==
         if FileName(id.kid).Some? then Writing(ids.files, FileName(id.kid).value, EncodeSigned(s), w) else ids.files
  {
    hide EncodeIdentity, DecodeIdentity, EncodeSigned, DecodeSigned, EncodeIdMessage, DecodeIdMessage, FileName,
      Writing;
    IdentityRoundTrips(id, s, IdResponse, []);
    assert EncodeIdMessage(IdResponse, s) + [] == EncodeIdMessage(IdResponse, s);
  }

  lemma CertificateIsLearned(kidOf: KidReader, issued: set<Signature>, ids: Ids, id: Identity, s: SignedIdentity)
    requires IsCertificate(kidOf, issued, ids.keys, id, s) && IsNews(ids.keys, id)
    ensures
      var outcome := Learn(kidOf, issued, ids, EncodeIdMessage(IdResponse, s));
      && outcome.result == (if FileName(id.kid).Some? then 0 else -1)
      && outcome.ids.keys == ids.keys[id.kid := id.key]
      && outcome.ids.learned == ids.learned[id.kid := id.key]
      && outcome.ids.files ==
         if FileName(id.kid).Some? then Persist(ids.files, s, FileName(id.kid).value) else ids.files
  {
    hide LearnOn, IsCertificate, EncodeIdMessage, FileName, Writing;
    CertificateIsLearnedOn(kidOf, issued, ids, id, s, Complete);
  }

  lemma KnownIsSkipped(kidOf: KidReader, issued: set<Signature>, ids: Ids, id: Identity, s: SignedIdentity,
                       storage: Storage)
    requires IsCertificate(kidOf, issued, ids.keys, id, s) && !IsNews(ids.keys, id)
    ensures LearnOn(kidOf, issued, ids, EncodeIdMessage(IdResponse, s), storage) == LearnOutcome(0, ids)
  {
    hide EncodeIdentity, DecodeIdentity, EncodeSigned, DecodeSigned, EncodeIdMessage, DecodeIdMessage, FileName,
      Writing;
    IdentityRoundTrips(id, s, IdResponse, []);
    assert EncodeIdMessage(IdResponse, s) + [] == EncodeIdMessage(IdResponse, s);
  }

  lemma LearnOne(kidOf: KidReader, ids: Ids, front: seq<Response>, last: Response)
    ensures LearnAll(kidOf, ids, front + [last]) ==
            Learn(kidOf, last.issued, LearnAll(kidOf, ids, front), last.message).ids
  {
    hide Learn;
    assert (front + [last])[..|front + [last]| - 1] == front;
  }

  // A certified device that is neither gate nor mate: its key is used from then on, the response
  // is reported as failed, no file is written, and the reload will miss the key.
  lemma {:induction false} OtherDevicesAreLost(kidOf: KidReader, issued: set<Signature>, ids: Ids,
                                               id: Identity, s: SignedIdentity)
    requires IsSetup(ids) && IsCertificate(kidOf, issued, ids.keys, id, s) && IsNews(ids.keys, id)
    requires id.kid[2] != DEVICE_TYPE_GATE && id.kid[2] != DEVICE_TYPE_SENSEMATE
    ensures
      var message := EncodeIdMessage(IdResponse, s);
      var after := LearnAll(kidOf, ids, [Response(issued, message)]);
      && Learn(kidOf, issued, ids, message).result == -1
      && after.keys == ids.keys[id.kid := id.key] && after.files == map[]
      && !Nameable(after.learned) && !FilesHold(after.files, after.learned)
  {
    hide LearnAll, Learn, EncodeIdMessage, IsCertificate, FilesHold, Persist;
    var response := Response(issued, EncodeIdMessage(IdResponse, s));
    CertificateIsLearned(kidOf, issued, ids, id, s);
    LearnNothing(kidOf, ids);
    LearnOne(kidOf, ids, [], response);
    assert [] + [response] == [response];
    var after := LearnAll(kidOf, ids, [response]);
    assert id.kid in after.learned;
    ReloadAgreesIff(kidOf, ids, [response]);
  }

  lemma LearnNothing(kidOf: KidReader, ids: Ids)
    ensures LearnAll(kidOf, ids, []) == ids
  {
  }

  // A write that fails or stops early is never made up for: the key is in use, so hearing the
  // response again succeeds at once and leaves the file as it is.
  lemma {:induction false} FailedWriteIsNotRepeated(kidOf: KidReader, issued: set<Signature>, ids: Ids, id: Identity,
                                                    s: SignedIdentity, w: FileWrite, again: Storage)
    requires IsCertificate(kidOf, issued, ids.keys, id, s) && IsNews(ids.keys, id) && FileName(id.kid).Some?
    ensures
      var message := EncodeIdMessage(IdResponse, s);
      var first := LearnOn(kidOf, issued, ids, message, Storage(true, w));
      && first.result == (if Reported(w) then -1 else 0)
      && first.ids.keys == ids.keys[id.kid := id.key]
      && first.ids.files == Writing(ids.files, FileName(id.kid).value, EncodeSigned(s), w)
      && LearnOn(kidOf, issued, first.ids, message, again) == LearnOutcome(0, first.ids)
  {
    assert id.kid != ROOT_KID;
    hide LearnOn, EncodeIdentity, EncodeSigned, EncodeIdMessage, FileName, Writing;
    CertificateIsLearnedOn(kidOf, issued, ids, id, s, w);
    var first := LearnOn(kidOf, issued, ids, EncodeIdMessage(IdResponse, s), Storage(true, w));
    KnownIsSkipped(kidOf, issued, first.ids, id, s, again);
  }

  // Two certified gates or mates whose ids agree in the last two bytes: both keys are used, but
  // the one file holds only the identity learned last.
  lemma {:induction false} CollidingIdsAreLost(kidOf: KidReader, issued: set<Signature>, ids: Ids,
                                               a: Identity, sa: SignedIdentity, b: Identity, sb: SignedIdentity)
    requires IsSetup(ids) && a.kid != b.kid && a.kid[2..] == b.kid[2..] && FileName(a.kid).Some?
    requires IsCertificate(kidOf, issued, ids.keys, a, sa) && IsNews(ids.keys, a)
    requires IsCertificate(kidOf, issued, ids.keys, b, sb) && IsNews(ids.keys, b)
    ensures
      var ra := Response(issued, EncodeIdMessage(IdResponse, sa));
      var rb := Response(issued, EncodeIdMessage(IdResponse, sb));
      var after := LearnAll(kidOf, ids, [ra, rb]);
      && after.keys == ids.keys[a.kid := a.key][b.kid := b.key]
      && after.files.Keys == {FileName(a.kid).value}
      && ReadIdentity(after.files[FileName(a.kid).value]) == Some(b)
      && !Nameable(after.learned) && !FilesHold(after.files, after.learned)
  {
    hide LearnAll, Learn, EncodeIdMessage, EncodeIdentity, EncodeSigned, ReadIdentity, FilesHold, Persist, Decimal;
    var ra, rb := Response(issued, EncodeIdMessage(IdResponse, sa)), Response(issued, EncodeIdMessage(IdResponse, sb));
    assert a.kid[2..][0] == b.kid[2..][0] && a.kid[2..][1] == b.kid[2..][1];
    var file := FileName(a.kid).value;
    assert FileName(b.kid) == Some(file) && a.kid != ROOT_KID;
    LearnNothing(kidOf, ids);
    LearnOne(kidOf, ids, [], ra);
    LearnOne(kidOf, ids, [ra], rb);
    assert [] + [ra] == [ra] && [ra] + [rb] == [ra, rb];
    CertificateIsLearned(kidOf, issued, ids, a, sa);
    var between := LearnAll(kidOf, ids, [ra]);
    CertificateIsLearned(kidOf, issued, between, b, sb);
    CertifiedPersists(ids.files, sa, a);
    CertifiedPersists(between.files, sb, b);
    var after := LearnAll(kidOf, ids, [ra, rb]);
    assert a.kid in after.learned && b.kid in after.learned;
    ReloadAgreesIff(kidOf, ids, [ra, rb]);
  }

  lemma CertifiedPersists(files: Files, s: SignedIdentity, id: Identity)
    requires WellKept(files) && s.payload == EncodeIdentity(id) && FileName(id.kid).Some?
    ensures
      var file := FileName(id.kid).value;
      var files' := Persist(files, s, file);
      WellKept(files') && ReadIdentity(files'[file]) == Some(id) && files'.Keys == files.Keys + {file}
  {
    hide EncodeSigned, DecodeSigned, DecodeIdentity, EncodeIdentity, FileName;
    IdentityRoundTrips(id, s, IdResponse, []);
    PersistKeeps(files, s, id);
    PersistTouchesOne(files, s, FileName(id.kid).value);
  }

  // The public keys after the identities in some files were installed one after the other. A
  // file that cannot be read or holds no identity is skipped.
  function LoadAll(files: Files, listing: seq<string>, keys: KeyRing): KeyRing
    requires forall f :: f in listing ==> f in files
  {
    if listing == [] then keys
    else
      var front := LoadAll(files, listing[..|listing| - 1], keys);
      match ReadIdentity(files[listing[|listing| - 1]])
      case None => front
      case Some(id) => front[id.kid := id.key]
  }

  // A file can be read and holds the identity of this id.
  predicate HoldsIdentity(files: Files, file: string, kid: NodeId) {
    file in files && ReadIdentity(files[file]).Some? && ReadIdentity(files[file]).value.kid == kid
  }

  // An id for which no listed file can be read keeps its key.
  lemma {:induction false} LoadAllKeepsOthers(files: Files, listing: seq<string>, keys: KeyRing, kid: NodeId)
    requires forall f :: f in listing ==> f in files && !HoldsIdentity(files, f, kid)
    ensures kid in LoadAll(files, listing, keys) <==> kid in keys
    ensures kid in keys ==> LoadAll(files, listing, keys)[kid] == keys[kid]
    decreases |listing|
  {
    hide ReadIdentity;
    if listing != [] {
      LoadAllKeepsOthers(files, listing[..|listing| - 1], keys, kid);
      assert listing[|listing| - 1] in listing;
    }
  }

  // Of the files for an id that can be read the last in the listing decides, whatever files
  // cannot be read.
  lemma {:induction false} LoadAllTakesTheLast(files: Files, before: seq<string>, file: string, after: seq<string>,
                                               keys: KeyRing, kid: NodeId)
    requires forall f :: f in before + [file] + after ==> f in files
    requires HoldsIdentity(files, file, kid) && forall f :: f in after ==> !HoldsIdentity(files, f, kid)
    ensures kid in LoadAll(files, before + [file] + after, keys)
    ensures LoadAll(files, before + [file] + after, keys)[kid] == ReadIdentity(files[file]).value.key
  {
    hide ReadIdentity, LoadAll;
    LoadAllStep(files, before, file, keys);
    LoadAllInParts(files, before + [file], after, keys);
    LoadAllKeepsOthers(files, after, LoadAll(files, before + [file], keys), kid);
  }

  lemma LoadAllStep(files: Files, before: seq<string>, file: string, keys: KeyRing)
    requires file in files && forall f :: f in before ==> f in files
    ensures LoadAll(files, before + [file], keys) ==
            match ReadIdentity(files[file])
            case None => LoadAll(files, before, keys)
            case Some(id) => LoadAll(files, before, keys)[id.kid := id.key]
  {
    hide ReadIdentity;
    assert (before + [file])[..|before + [file]| - 1] == before;
  }

  lemma {:induction false} LoadAllInParts(files: Files, a: seq<string>, b: seq<string>, keys: KeyRing)
    requires forall f :: f in a + b ==> f in files
    ensures (forall f :: f in a ==> f in files) && (forall f :: f in b ==> f in files)
    ensures LoadAll(files, a + b, keys) == LoadAll(files, b, LoadAll(files, a, keys))
    decreases |b|
  {
    hide ReadIdentity;
    assert forall f :: f in a || f in b ==> f in a + b;
    if b == [] {
      assert a + b == a;
    } else {
      LoadAllInParts(files, a, b[..|b| - 1], keys);
      assert (a + b)[..|a + b| - 1] == a + b[..|b| - 1];
    }
  }

  // Public keys before and after all of some well-kept files were installed.
  ghost predicate Loaded(read: set<string>, files: Files, before: KeyRing, after: KeyRing)
    requires read <= files.Keys && WellKept(files)
  {
    && (forall f :: f in read ==>
                      var id := ReadIdentity(files[f]).value; id.kid in after && after[id.kid] == id.key)
    && (forall kid :: kid in before && (forall f :: f in read ==> ReadIdentity(files[f]).value.kid != kid) ==>
                        kid in after && after[kid] == before[kid])
    && (forall kid :: kid in after ==>
                        kid in before || exists f :: f in read && ReadIdentity(files[f]).value.kid == kid)
  }

  lemma LoadedNothing(files: Files, before: KeyRing)
    requires WellKept(files)
    ensures Loaded({}, files, before, before)
  {
  }

  lemma LoadedStep(read: set<string>, files: Files, before: KeyRing, after: KeyRing, file: string)
    requires read <= files.Keys && WellKept(files) && file in files
    requires Loaded(read, files, before, after)
    ensures
      var id := ReadIdentity(files[file]).value;
      Loaded(read + {file}, files, before, after[id.kid := id.key])
  {
    hide ReadIdentity, FileName;
  }

  // The order of the listing does not matter for well-kept files.
  lemma {:induction false} LoadAllIsLoaded(files: Files, listing: seq<string>, keys: KeyRing)
    requires WellKept(files) && forall f :: f in listing ==> f in files
    ensures Loaded((set f | f in listing), files, keys, LoadAll(files, listing, keys))
    decreases |listing|
  {
    hide Loaded, ReadIdentity;
    if listing == [] {
      LoadedNothing(files, keys);
      assert (set f | f in listing) == {};
    } else {
      var front, last := listing[..|listing| - 1], listing[|listing| - 1];
      LoadAllIsLoaded(files, front, keys);
      assert listing == front + [last];
      LoadedStep((set f | f in front), files, keys, LoadAll(files, front, keys), last);
      assert (set f | f in listing) == (set f | f in front) + {last};
    }
  }

  lemma {:induction false} ReloadRestores(setup: KeyRing, ids: Ids, after: KeyRing)
    requires IdsInvariant(setup, ids) && FilesHold(ids.files, ids.learned)
    requires Loaded(ids.files.Keys, ids.files, setup, after)
    ensures after == ids.keys
  {
    hide ReadIdentity, FileName, FilesHold;
    forall kid | kid in ids.learned ensures kid in after && after[kid] == ids.learned[kid] {
      var f := FileOf(ids.files, ids.learned, kid);
    }
  }

  // A reboot loses nothing: installing the stored identities over the keys of the setup, in any
  // order, gives the keys in use before, provided every learned id can be named.
  lemma {:induction false} RebootRestoresKeys(kidOf: KidReader, ids: Ids, responses: seq<Response>,
                                              listing: seq<string>)
    requires IsSetup(ids) && Nameable(LearnAll(kidOf, ids, responses).learned)
    requires forall f :: f in listing <==> f in LearnAll(kidOf, ids, responses).files
    ensures LoadAll(LearnAll(kidOf, ids, responses).files, listing, ids.keys) == LearnAll(kidOf, ids, responses).keys
  {
    hide FilesHold, Nameable, Loaded, WellKept, LearnAll, LoadAll;
    var end := LearnAll(kidOf, ids, responses);
    LearnAllKeepsInvariant(kidOf, ids, responses);
    ReloadAgreesIff(kidOf, ids, responses);
    assert WellKept(end.files);
    hide IdsInvariant;
    LoadAllIsLoaded(end.files, listing, ids.keys);
    assert (set f | f in listing) == end.files.Keys;
    ReloadRestores(ids.keys, end, LoadAll(end.files, listing, ids.keys));
  }

  // ---------------------------------------------------------------- the service

  class IdentityService {
    const crypto: CoseService
    var files: Files
    ghost var learned: map<NodeId, PublicKey>

    ghost predicate Valid()
      reads this, crypto, crypto.credentials
    {
      crypto.Valid()
    }

    ghost function View(): Ids
      reads this, crypto, crypto.credentials
    {
      Ids(crypto.credentials.publicKeys, files, learned)
    }

    constructor (crypto: CoseService)
      requires crypto.Valid()
      ensures Valid() && this.crypto == crypto && files == map[] && learned == map[]
    {
      this.crypto, this.files, this.learned := crypto, map[], map[];
    }

    // `w` is how the file system behaves.
    method WriteFile(path: string, data: seq<byte>, w: FileWrite) returns (result: int)
      modifies this`files
      ensures result == if w.OpenFails? || w.WriteFails? then -1 else 0
      ensures files == Writing(old(files), path, data, w)
      ensures !w.OpenFails? ==>
                var present := if path in old(files) then old(files)[path] else [];
                var n := WrittenCount(data, w);
                && path in files && |files[path]| == (if |present| > n then |present| else n)
                && forall i :: 0 <= i < |files[path]| ==> files[path][i] == if i < n then data[i] else present[i]
    {
      WritingIsBytewise(files, path, data, w);
      if w.OpenFails? {
        return -1;
      }
      var present := if path in files then files[path] else [];
      files := files[path := present];
      if w.WriteFails? {
        return -1;
      }
      var written := if w.Stops? && w.count < |data| then data[..w.count] else data;
      if |present| > |written| {
        files := files[path := written + present[|written|..]];
      } else {
        files := files[path := written];
      }
      return 0;
    }

    method AddSignedPublicIdentity(s: SignedIdentity, w: FileWrite) returns (result: int)
      modifies this`files
      ensures
        var id := DecodeIdentity(s.payload);
        if id.Some? && FileName(id.value.kid).Some? then
          && result == (if Reported(w) then -1 else 0)
          && files == Writing(old(files), FileName(id.value.kid).value, EncodeSigned(s), w)
        else result == -1 && files == old(files)
    {
      EncodedSizes(Identity(ZERO_ID, seq(32, i => 0)), s, IdResponse);
      hide EncodeSigned, DecodeIdentity;
      var id := DeserializeIdentity(s.payload);
      if id.None? {
        return -1;
      }
      var fileName := "";
      if id.value.kid[2] == DEVICE_TYPE_GATE {
        fileName := "sensegate-";
      } else if id.value.kid[2] == DEVICE_TYPE_SENSEMATE {
        fileName := "sensemate-";
      } else {
        return -1;
      }
      fileName := fileName + Decimal(id.value.kid[3]);
      var buffer := new byte[MAX_IDENTITY_SIZE];
      var serialized, length := SerializePair(s.payload, s.signature, buffer, MAX_IDENTITY_SIZE);
      assert EncodeSigned(s) == buffer[..length] by {
        SignedIsPair(s);
      }
      result := WriteFile(fileName, buffer[..length], w);
    }

    method HandleIdResponse(message: seq<byte>, storage: Storage) returns (result: int)
      requires Valid()
      modifies this, crypto.credentials
      ensures Valid()
      ensures
        var outcome := LearnOn(crypto.kidOf, crypto.issued, old(View()), message, storage);
        result == outcome.result && View() == outcome.ids
      ensures result == 0 ==>
                exists id :: IsCertified(crypto.kidOf, crypto.issued, old(crypto.credentials.publicKeys), message, id)
    {
      forall id {
        LearnOnReports(crypto.kidOf, crypto.issued, View(), message, storage, id);
      }
      hide DecodeIdMessage, DecodeIdentity, EncodeSigned, Writing;
      var decoded := DeserializeIdMessage(message);
      if decoded.None? {
        return -1;
      }
      var s := decoded.value.1;
      var verification := crypto.Verify(ROOT_KID, IdentityPayload(s.payload), s.signature);
      if verification != 0 {
        return -1;
      }
      var id := DeserializeIdentity(s.payload);
      if id.None? {
        return -1;
      }
      var found, length, existing := crypto.credentials.GetKey(id.value.kid, Public, Some(ED25519_KEY_LEN));
      if found == 0 && existing == Some(id.value.key) {
        return 0;
      }
      result := crypto.credentials.AddKey(id.value.kid, Public, id.value.key, storage.keyAccepted);
      if result != 0 {
        return -1;
      }
      learned := learned[id.value.kid := id.value.key];
      result := AddSignedPublicIdentity(s, storage.file);
      if result != 0 {
        return -1;
      }
    }

    // Installs every stored identity, walking the directory in whatever order it is listed and
    // skipping what cannot be read.
    method LoadIdentities(listing: seq<string>)
      requires Valid()
      requires forall f :: f in listing ==> f in files
      modifies crypto.credentials
      ensures Valid()
      ensures crypto.credentials.publicKeys == LoadAll(files, listing, old(crypto.credentials.publicKeys))
    {
      hide DecodeIdentity, DecodeSigned;
      var i := 0;
      while i < |listing|
        invariant 0 <= i <= |listing| && Valid()
        invariant crypto.credentials.publicKeys == LoadAll(files, listing[..i], old(crypto.credentials.publicKeys))
      {
        assert listing[..i + 1][..i] == listing[..i];
        var content := files[listing[i]];
        if |content| <= MAX_IDENTITY_SIZE {
          var signed := DeserializeSigned(content);
          if signed.Some? {
            var id := DeserializeIdentity(signed.value.payload);
            if id.Some? {
              var added := crypto.credentials.AddKey(id.value.kid, Public, id.value.key, true);
            }
          }
        }
        i := i + 1;
      }
      assert listing[..i] == listing;
    }
  }

  lemma SignedIsPair(s: SignedIdentity)
    ensures EncodeSigned(s) == Cbor.EncodeArray(Pair(s.payload, s.signature))
  {
  }
}
