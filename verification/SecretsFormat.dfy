/**
 The on-disk formats of the secrets store: the master-key file, the legacy v1 store and
 the v2 store. Cryptography and the JSON codec are parameters; only their round trips and
 the two fixed lengths are relied on.
 */
module SecretsFormat {
  import opened Bytes
  import opened Options

  const KEY_LEN := 32
  const TAG_LEN := 16
  const NONCE_LEN := 12
  const KEY_CHECK_LEN := 32

  type Key = k: seq<Byte> | |k| == KEY_LEN witness seq(KEY_LEN, _ => 0)
  type Nonce = n: seq<Byte> | |n| == NONCE_LEN witness seq(NONCE_LEN, _ => 0)

  datatype Store = Store(apiKeys: map<string, string>, tokens: map<string, string>)

  const EMPTY_STORE := Store(map[], map[])

  /** AES-GCM, the two HMAC labels, the source-derived v1 key and the JSON codec. */
  datatype Crypto = Crypto(
    storeTag: Key -> seq<Byte>,
    keyCheck: Key -> seq<Byte>,
    seal: (Key, Nonce, seq<Byte>) -> seq<Byte>,
    unseal: (Key, Nonce, seq<Byte>) -> Option<seq<Byte>>,
    legacyKey: Key,
    encode: Store -> seq<Byte>,
    decode: seq<Byte> -> Option<Store>)
  {
    ghost predicate Sound() {
      && (forall k :: |storeTag(k)| == TAG_LEN)
      && (forall k :: |keyCheck(k)| == KEY_CHECK_LEN)
      && (forall k, n, p :: unseal(k, n, seal(k, n, p)) == Some(p))
      && (forall s :: decode(encode(s)) == Some(s))
    }
  }

  // ---- master-key file --------------------------------------------------------------------------------------------

  function KeyFileBytes(c: Crypto, key: Key): seq<Byte> {
    key + c.keyCheck(key)
  }

  function ParseVerified(c: Crypto, bytes: seq<Byte>): Option<Key> {
    if |bytes| != KEY_LEN + KEY_CHECK_LEN then None
    else
      var key: Key := bytes[..KEY_LEN];
      if bytes[KEY_LEN..] == c.keyCheck(key) then Some(key) else None
  }

  /** A key file verifies exactly when all of it was written: no shorter prefix is a key. */
  lemma KeyFileVerifiesExactlyWhenComplete(c: Crypto, key: Key, written: seq<Byte>)
    requires c.Sound()
    requires written <= KeyFileBytes(c, key)
    ensures ParseVerified(c, written) == if written == KeyFileBytes(c, key) then Some(key) else None
  {
    var full := KeyFileBytes(c, key);
    assert |full| == KEY_LEN + KEY_CHECK_LEN;
    if |written| == |full| {
      assert written == full;
      assert full[..KEY_LEN] == key && full[KEY_LEN..] == c.keyCheck(key);
    }
  }

  // ---- store file -------------------------------------------------------------------------------------------------

  predicate IsLegacyV1(bytes: seq<Byte>) {
    bytes != [] && bytes[0] == 1
  }

  function EncodeV2(c: Crypto, key: Key, nonce: Nonce, store: Store): seq<Byte> {
    [2] + c.storeTag(key) + nonce + c.seal(key, nonce, c.encode(store))
  }

  /** `decrypt_aes_gcm`; `key` is the outcome of loading the master-key file. */
  function Decrypt(c: Crypto, bytes: seq<Byte>, key: Option<Key>): Option<seq<Byte>> {
    if |bytes| < 1 + NONCE_LEN then None
    else if bytes[0] == 1 then
      c.unseal(c.legacyKey, bytes[1..13], bytes[13..])
    else if bytes[0] == 2 then
      if |bytes| < 1 + TAG_LEN + NONCE_LEN then None
      else if key.None? then None
      else if bytes[1..17] != c.storeTag(key.value) then None
      else c.unseal(key.value, bytes[17..29], bytes[29..])
    else None
  }

  /** `load_secrets_store`: a missing or zero-byte file is the empty store. */
  function Decode(c: Crypto, bytes: Option<seq<Byte>>, key: Option<Key>): Option<Store> {
    if bytes.None? || bytes.value == [] then Some(EMPTY_STORE)
    else
      match Decrypt(c, bytes.value, key)
      case None => None
      case Some(plain) => c.decode(plain)
  }

  /** Every published v2 file decodes, under the key it was sealed with, to the saved store. */
  lemma StoreRoundTrip(c: Crypto, key: Key, nonce: Nonce, store: Store)
    requires c.Sound()
    ensures Decode(c, Some(EncodeV2(c, key, nonce, store)), Some(key)) == Some(store)
    ensures !IsLegacyV1(EncodeV2(c, key, nonce, store))
  {
    var tag, sealed := c.storeTag(key), c.seal(key, nonce, c.encode(store));
    var bytes := EncodeV2(c, key, nonce, store);
    assert bytes[1..17] == tag && bytes[17..29] == nonce && bytes[29..] == sealed;
  }

  /** Gaining a key where there was none changes no store that was readable without one. */
  lemma DecodeKeepsWorking(c: Crypto, bytes: Option<seq<Byte>>, key: Option<Key>, later: Option<Key>)
    requires Decode(c, bytes, key).Some?
    requires key.Some? ==> later == key
    ensures Decode(c, bytes, later) == Decode(c, bytes, key)
  {
  }
}
