// Keys on file and the decision flow of signing and verifying, over ideal signatures.
module Crypto {
  import opened Types

  const ED25519_KEY_LEN: nat := 32

  // Keys by key id.
  type KeyRing = map<seq<byte>, seq<byte>>

  // ---------------------------------------------------------------- credential manager

  datatype CredentialType = Public | Private

  function StoreKey(t: CredentialType, kid: seq<byte>): seq<byte> {
    [if t == Public then 0 else 1] + kid
  }

  lemma StoreKeyIsInjective(t: CredentialType, kid: seq<byte>, t': CredentialType, kid': seq<byte>)
    ensures StoreKey(t, kid) == StoreKey(t', kid') <==> t == t' && kid == kid'
  {
    assert StoreKey(t, kid)[1..] == kid && StoreKey(t', kid')[1..] == kid';
    if StoreKey(t, kid) == StoreKey(t', kid') {
      assert StoreKey(t, kid)[0] == StoreKey(t', kid')[0];
    }
  }

  class CredentialManager {
    var store: map<seq<byte>, seq<byte>>
    // The key rings the flat store stands for.
    ghost var publicKeys: KeyRing
    ghost var privateKeys: KeyRing

    ghost function Ring(t: CredentialType): KeyRing
      reads this
    {
      if t == Public then publicKeys else privateKeys
    }

    ghost predicate Valid()
      reads this
    {
      forall t, kid {:trigger StoreKey(t, kid)} ::
        && (StoreKey(t, kid) in store <==> kid in Ring(t))
        && (kid in Ring(t) ==> store[StoreKey(t, kid)] == Ring(t)[kid])
    }

    constructor ()
      ensures Valid() && publicKeys == map[] && privateKeys == map[]
    {
      store, publicKeys, privateKeys := map[], map[], map[];
    }

    // `capacity` is the caller's buffer, None for the NULL buffer of a size query; `length` is what
    // the caller finds in its length variable afterwards.
    method GetKey(kid: seq<byte>, t: CredentialType, capacity: Option<nat>)
      returns (result: int, length: nat, key: Option<seq<byte>>)
      requires Valid()
      ensures key.Some? <==> capacity.Some? && capacity.value >= ED25519_KEY_LEN && kid in Ring(t)
      ensures key.Some? ==> kid in Ring(t) && key.value == Ring(t)[kid]
      ensures result == if key.Some? || capacity.None? then 0 else -1
      ensures length == if capacity.Some? && capacity.value >= ED25519_KEY_LEN && key.None?
                        then capacity.value else ED25519_KEY_LEN
    {
      if capacity.None? {
        return 0, ED25519_KEY_LEN, None;
      }
      if capacity.value < ED25519_KEY_LEN {
        return -1, ED25519_KEY_LEN, None;
      }
      var storeKey := StoreKey(t, kid);
      if storeKey !in store {
        return -1, capacity.value, None;
      }
      return 0, ED25519_KEY_LEN, Some(store[storeKey]);
    }

    // `accepted` says whether the store takes the key; if not, adding fails and changes nothing.
    method AddKey(kid: seq<byte>, t: CredentialType, key: seq<byte>, accepted: bool) returns (result: int)
      requires Valid()
      modifies this
      ensures Valid()
      ensures result == if accepted then 0 else -1
      ensures Ring(t) == if accepted then old(Ring(t))[kid := key] else old(Ring(t))
      ensures forall t' :: t' != t ==> Ring(t') == old(Ring(t'))
    {
      if !accepted {
        return -1;
      }
      store := store[StoreKey(t, kid) := key];
      if t == Public {
        publicKeys := publicKeys[kid := key];
      } else {
        privateKeys := privateKeys[kid := key];
      }
      forall t', kid' ensures StoreKey(t, kid) == StoreKey(t', kid') <==> t == t' && kid == kid' {
        StoreKeyIsInjective(t, kid, t', kid');
      }
      return 0;
    }

    // Deleting a key that is not on file fails and changes nothing.
    method DeleteKey(kid: seq<byte>, t: CredentialType) returns (result: int)
      requires Valid()
      modifies this
      ensures Valid()
      ensures result == if kid in old(Ring(t)) then 0 else -1
      ensures Ring(t) == old(Ring(t)) - {kid}
      ensures forall t' :: t' != t ==> Ring(t') == old(Ring(t'))
    {
      if StoreKey(t, kid) !in store {
        return -1;
      }
      store := store - {StoreKey(t, kid)};
      if t == Public {
        publicKeys := publicKeys - {kid};
      } else {
        privateKeys := privateKeys - {kid};
      }
      forall t', kid' ensures StoreKey(t, kid) == StoreKey(t', kid') <==> t == t' && kid == kid' {
        StoreKeyIsInjective(t, kid, t', kid');
      }
      return 0;
    }
  }

  // ---------------------------------------------------------------- ideal signatures

  datatype Payload = RecordPayload(body: Body) | IdentityPayload(bytes: seq<byte>)

  // One act of signing: `bytes` is the COSE structure produced over `payload` with the private
  // half of `key`. Verification is ideal: it accepts exactly the signatures that were made.
  datatype Signature = Signature(key: seq<byte>, payload: Payload, bytes: seq<byte>)

  // How the COSE library reads the signer's key id out of a signature; None covers bytes that
  // do not decode, carry no signature, or carry no key id.
  type KidReader = seq<byte> -> Option<seq<byte>>

  predicate Verifies(kidOf: KidReader, issued: set<Signature>, keys: KeyRing,
                     kid: seq<byte>, payload: Payload, bytes: seq<byte>)
  {
    && kid != []
    && kidOf(bytes) == Some(kid)
    && kid in keys
    && Signature(keys[kid], payload, bytes) in issued
  }

  // A record carries its signature or none; an absent or empty one never verifies.
  predicate RecordVerifies(kidOf: KidReader, issued: set<Signature>, keys: KeyRing, r: Record)
  {
    && r.signature.Some?
    && r.signature.value != []
    && Verifies(kidOf, issued, keys, r.body.writer, RecordPayload(r.body), r.signature.value)
  }

  class CoseService {
    const kidOf: KidReader
    const credentials: CredentialManager
    var issued: set<Signature>

    ghost predicate Valid()
      reads this, credentials
    {
      credentials.Valid()
    }

    constructor (kidOf: KidReader, credentials: CredentialManager)
      requires credentials.Valid()
      ensures Valid() && this.kidOf == kidOf && this.credentials == credentials && issued == {}
    {
      this.kidOf, this.credentials, this.issued := kidOf, credentials, {};
    }

    // `encoded` is what the COSE library makes of the payload; None is its error return. A size
    // query and the real call produce the same structure; only the real call, with room for it,
    // hands the signature out. `length` is what the caller finds in its length variable.
    method Sign(kid: seq<byte>, payload: Payload, encoded: Option<seq<byte>>, capacity: Option<nat>)
      returns (result: int, length: Option<nat>, signature: Option<seq<byte>>)
      requires Valid()
      requires encoded.Some? ==> kidOf(encoded.value) == Some(kid)
      modifies this
      ensures Valid()
      ensures
        var signs := && kid in credentials.privateKeys && kid in credentials.publicKeys
                     && encoded.Some? && encoded.value != [];
        && result == (if signs && (capacity.None? || |encoded.value| <= capacity.value) then 0 else -1)
        && length == (if result == 0 then Some(|encoded.value|) else None)
        && signature == (if result == 0 && capacity.Some? then encoded else None)
      ensures issued == if signature.Some?
                        then old(issued) + {Signature(credentials.publicKeys[kid], payload, signature.value)}
                        else old(issued)
    {
      var found, keyLength, privateKey := credentials.GetKey(kid, Private, Some(ED25519_KEY_LEN));
      if found != 0 {
        return -1, None, None;
      }
      var publicKey;
      found, keyLength, publicKey := credentials.GetKey(kid, Public, Some(ED25519_KEY_LEN));
      if found != 0 {
        return -1, None, None;
      }
      if encoded.None? || |encoded.value| <= 0 {
        return -1, None, None;
      }
      if capacity.None? {
        return 0, Some(|encoded.value|), None;
      }
      if capacity.value < |encoded.value| {
        return -1, None, None;
      }
      issued := issued + {Signature(publicKey.value, payload, encoded.value)};
      return 0, Some(|encoded.value|), encoded;
    }

    method Verify(kid: seq<byte>, payload: Payload, bytes: seq<byte>) returns (result: int)
      requires Valid()
      ensures result == if Verifies(kidOf, issued, credentials.publicKeys, kid, payload, bytes) then 0 else -1
    {
      var kidInSignature := kidOf(bytes);
      if kidInSignature.None? || |kidInSignature.value| <= 0 {
        return -1;
      }
      if |kidInSignature.value| != |kid| || kid != kidInSignature.value {
        return -1;
      }
      var found, keyLength, publicKey := credentials.GetKey(kidInSignature.value, Public, Some(ED25519_KEY_LEN));
      if found != 0 {
        return -1;
      }
      if Signature(publicKey.value, payload, bytes) !in issued {
        return -1;
      }
      return 0;
    }
  }
}
