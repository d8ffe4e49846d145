/**
 * `RedisCryptoManager`: the server's RSA key pair kept in Redis, the session handshake that
 * unwraps a browser's AES key and IV with RSA-OAEP (section 7.1 of RFC 8017, SHA-256 for
 * both hash and MGF1) and binds them to a session id for an hour, and the sealing and
 * opening of payloads with AES-CBC under that binding.
 */
module CryptoUtils {
  import opened Wrappers
  import opened Bytes
  import opened Text
  import opened JsonModel
  import opened Codecs
  import opened Pkcs7
  import Cbc
  import opened KeyStore

  const RsaPrivateKeyName: string := "crypto:rsa_private_key"
  const RsaPublicKeyName: string := "crypto:rsa_public_key"
  /** Seconds a session's key and IV stay in the store. */
  const AesKeyTtl: nat := 3600

  function AesKeyName(sessionId: string): string {
    "aes_key:" + sessionId
  }

  function AesIvName(sessionId: string): string {
    "aes_iv:" + sessionId
  }

  /** The per-session names never collide with each other, across sessions, or with the key pair's names. */
  lemma NamesDistinct(a: string, b: string)
    ensures AesKeyName(a) != AesIvName(b)
    ensures AesKeyName(a) != RsaPrivateKeyName && AesKeyName(a) != RsaPublicKeyName
    ensures AesIvName(a) != RsaPrivateKeyName && AesIvName(a) != RsaPublicKeyName
    ensures AesKeyName(a) == AesKeyName(b) <==> a == b
    ensures AesIvName(a) == AesIvName(b) <==> a == b
  {
    assert AesKeyName(a)[4] == 'k' && AesIvName(b)[4] == 'i';
    assert RsaPrivateKeyName[0] == 'c' && RsaPublicKeyName[0] == 'c';
    assert AesKeyName(a)[0] == 'a' && AesIvName(a)[0] == 'a';
    if AesKeyName(a) == AesKeyName(b) {
      assert a == AesKeyName(a)[8..] && b == AesKeyName(b)[8..];
    }
    if AesIvName(a) == AesIvName(b) {
      assert a == AesIvName(a)[7..] && b == AesIvName(b)[7..];
    }
  }

  /**
   * The cryptographic library calls: RSA-2048 key generation (public exponent 65537, the
   * randomness it consumes given as a seed) serialised as PKCS#8 PEM, the DER
   * SubjectPublicKeyInfo of a private key's public half, RSA-OAEP encryption under such a
   * DER key as the browser performs it (None where WebCrypto rejects), RSA-OAEP decryption
   * with a PEM private key (None where loading or decrypting raises), and the AES block
   * function in both directions.
   */
  datatype RsaAes = RsaAes(
    generatePrivateKey: nat -> string,
    spkiOf: string -> Bytes,
    oaepEncrypt: (Bytes, Bytes) -> Option<Bytes>,
    oaepDecrypt: (string, Bytes) -> Option<Bytes>,
    aesEncrypt: Cbc.BlockFn,
    aesDecrypt: Cbc.BlockFn
  )

  /** What the model relies on from the cryptographic library. */
  ghost predicate CryptoLawful(p: RsaAes) {
    && Cbc.Inverse(p.aesEncrypt, p.aesDecrypt)
    && (forall seed :: p.generatePrivateKey(seed) != [])
    && (forall seed, m :: p.oaepEncrypt(p.spkiOf(p.generatePrivateKey(seed)), m).Some? ==>
          p.oaepDecrypt(p.generatePrivateKey(seed), p.oaepEncrypt(p.spkiOf(p.generatePrivateKey(seed)), m).value) == Some(m))
  }

  const PemBegin: string := "-----BEGIN PUBLIC KEY-----"
  const PemEnd: string := "-----END PUBLIC KEY-----"
  const PemLineLength: nat := 64

  /** Base64 text cut into lines of 64 characters, each ended by a newline (section 2 of RFC 7468). */
  function PemLines(text: string): string
    decreases |text|
  {
    if text == [] then []
    else if |text| <= PemLineLength then text + "\n"
    else text[..PemLineLength] + "\n" + PemLines(text[PemLineLength..])
  }

  /** `public_bytes(Encoding.PEM, PublicFormat.SubjectPublicKeyInfo)` of the key whose DER is `der`. */
  function PublicKeyPem(codecs: Codecs, der: Bytes): string {
    PemBegin + "\n" + PemLines(codecs.b64Encode(der)) + PemEnd + "\n"
  }

  /** The store after `_initialize_rsa_keys(force_new)` against a reachable store. */
  function AfterKeyInit(codecs: Codecs, p: RsaAes, entries: Entries, now: int, forceNew: bool, seed: nat): Entries {
    if forceNew || !Exists(entries, now, RsaPrivateKeyName) then
      var priv := p.generatePrivateKey(seed);
      Put(Put(entries, now, RsaPrivateKeyName, priv, None), now, RsaPublicKeyName, PublicKeyPem(codecs, p.spkiOf(priv)), None)
    else
      entries
  }

  /** A fresh pair is written when forced or when no private key is stored; both halves never expire and belong together. */
  lemma KeyInitWritesPair(codecs: Codecs, p: RsaAes, entries: Entries, now: int, forceNew: bool, seed: nat, later: int)
    requires forceNew || !Exists(entries, now, RsaPrivateKeyName)
    ensures var after := AfterKeyInit(codecs, p, entries, now, forceNew, seed);
      && Get(after, later, RsaPrivateKeyName) == Some(p.generatePrivateKey(seed))
      && Get(after, later, RsaPublicKeyName) == Some(PublicKeyPem(codecs, p.spkiOf(p.generatePrivateKey(seed))))
  {
  }

  /** Otherwise the store is left exactly as it was. */
  lemma KeyInitKeepsExisting(codecs: Codecs, p: RsaAes, entries: Entries, now: int, seed: nat)
    requires Exists(entries, now, RsaPrivateKeyName)
    ensures AfterKeyInit(codecs, p, entries, now, false, seed) == entries
  {
  }

  /**
   * How redis-py stores a value handed to `set`: a string as it is, an integer in decimal;
   * None, booleans, lists and dicts raise DataError.
   */
  function RedisText(v: Json): (r: Option<string>)
    ensures r.Some? <==> v.JString? || v.JInt?
  {
    match v
    case JString(s) => Some(s)
    case JInt(i) => Some(DecimalText(i))
    case _ => None
  }

  /**
   * What `store_and_decrypt_aes_key` gets to write: nothing, only the key (the `iv` lookup
   * raises after the key was already set), or both.
   */
  datatype KeyMaterial = Rejected | KeyOnly(key: string) | KeyAndIv(key: string, iv: string)

  /** `key_data[name]` as `set` would store it: None where the field is missing or SET refuses it. */
  function StoredField(fields: map<string, Json>, name: string): (r: Option<string>)
    ensures r.Some? <==> name in fields && RedisText(fields[name]).Some?
  {
    if name in fields then RedisText(fields[name]) else None
  }

  /** The decrypted handshake message read as UTF-8 JSON and its `key` and `iv` fields extracted. */
  function ParseKeyMaterial(codecs: Codecs, plain: Bytes): (r: KeyMaterial)
    // invalid UTF-8, malformed JSON and a JSON value that is not an object raise before any write
    ensures codecs.utf8Decode(plain).None? ==> r == Rejected
    ensures var text := codecs.utf8Decode(plain); text.Some? && codecs.loads(text.value).None? ==> r == Rejected
    ensures var text := codecs.utf8Decode(plain);
      text.Some? && codecs.loads(text.value).Some? && !codecs.loads(text.value).value.JObject? ==> r == Rejected
    // an object whose `key` is missing or not storable raises before any write
    ensures var text := codecs.utf8Decode(plain);
      (&& text.Some? && codecs.loads(text.value).Some? && codecs.loads(text.value).value.JObject?
       && StoredField(codecs.loads(text.value).value.fields, "key").None?) ==> r == Rejected
    // otherwise the key is written, and the IV too when it is present and storable
    ensures r.KeyOnly? <==>
      var text := codecs.utf8Decode(plain);
      && text.Some? && codecs.loads(text.value).Some? && codecs.loads(text.value).value.JObject?
      && StoredField(codecs.loads(text.value).value.fields, "key").Some?
      && StoredField(codecs.loads(text.value).value.fields, "iv").None?
    ensures r.KeyAndIv? <==>
      var text := codecs.utf8Decode(plain);
      && text.Some? && codecs.loads(text.value).Some? && codecs.loads(text.value).value.JObject?
      && StoredField(codecs.loads(text.value).value.fields, "key").Some?
      && StoredField(codecs.loads(text.value).value.fields, "iv").Some?
    ensures r != Rejected ==>
      var fields := codecs.loads(codecs.utf8Decode(plain).value).value.fields;
      && r.key == StoredField(fields, "key").value
      && (r.KeyAndIv? ==> r.iv == StoredField(fields, "iv").value)
  {
    match codecs.utf8Decode(plain)
    case None => Rejected
    case Some(text) =>
      match codecs.loads(text)
      case None => Rejected
      case Some(JObject(fields)) =>
        if "key" !in fields || RedisText(fields["key"]).None? then Rejected
        else if "iv" !in fields || RedisText(fields["iv"]).None? then KeyOnly(RedisText(fields["key"]).value)
        else KeyAndIv(RedisText(fields["key"]).value, RedisText(fields["iv"]).value)
      case Some(_) => Rejected
  }

  /** An integer `key` or `iv` is stored as decimal text that reads back as that integer. */
  lemma IntegerFieldText(i: int)
    ensures RedisText(JInt(i)).Some?
    ensures i >= 0 ==> DigitsValue(RedisText(JInt(i)).value) == i
    ensures i < 0 ==> RedisText(JInt(i)).value[0] == '-' && DigitsValue(RedisText(JInt(i)).value[1..]) == -i
  {
    if i >= 0 {
      DigitsRoundTrip(i);
    } else {
      DigitsRoundTrip(-i);
      assert RedisText(JInt(i)).value[1..] == Digits(-i);
    }
  }

  /** The handshake's decision, given what GET returned for the private key and the client's base64 blob. */
  function UnwrapKeyMaterial(codecs: Codecs, p: RsaAes, privatePem: Option<string>, blob: string): (m: KeyMaterial)
    ensures privatePem.None? || privatePem.value == "" ==> m == Rejected
    ensures codecs.b64Decode(blob).None? ==> m == Rejected
    ensures privatePem.Some? && codecs.b64Decode(blob).Some? && p.oaepDecrypt(privatePem.value, codecs.b64Decode(blob).value).None? ==> m == Rejected
    ensures privatePem.Some? && privatePem.value != "" && codecs.b64Decode(blob).Some? &&
            p.oaepDecrypt(privatePem.value, codecs.b64Decode(blob).value).Some? ==>
              m == ParseKeyMaterial(codecs, p.oaepDecrypt(privatePem.value, codecs.b64Decode(blob).value).value)
  {
    if privatePem.None? || privatePem.value == "" then Rejected
    else
      match codecs.b64Decode(blob)
      case None => Rejected
      case Some(ciphertext) =>
        match p.oaepDecrypt(privatePem.value, ciphertext)
        case None => Rejected
        case Some(plain) => ParseKeyMaterial(codecs, plain)
  }

  /** The store after the handshake's writes, both with a one-hour expiry. */
  function Bind(entries: Entries, now: int, sessionId: string, m: KeyMaterial): Entries {
    match m
    case Rejected => entries
    case KeyOnly(key) => Put(entries, now, AesKeyName(sessionId), key, Some(AesKeyTtl))
    case KeyAndIv(key, iv) =>
      Put(Put(entries, now, AesKeyName(sessionId), key, Some(AesKeyTtl)), now, AesIvName(sessionId), iv, Some(AesKeyTtl))
  }

  /** The message the browser encrypts in the handshake: UTF-8 JSON `{key, iv}`, both base64. */
  function KeyMessage(codecs: Codecs, key64: string, iv64: string): Bytes {
    codecs.utf8Encode(codecs.dumps(JObject(map["key" := JString(key64), "iv" := JString(iv64)])))
  }

  /** A blob the browser built under the stored key pair's public half unwraps to exactly its key and IV. */
  lemma UnwrapAcceptsKeyMessage(codecs: Codecs, p: RsaAes, seed: nat, key64: string, iv64: string, sealed: Bytes)
    requires Lawful(codecs) && CryptoLawful(p)
    requires p.oaepEncrypt(p.spkiOf(p.generatePrivateKey(seed)), KeyMessage(codecs, key64, iv64)) == Some(sealed)
    ensures UnwrapKeyMaterial(codecs, p, Some(p.generatePrivateKey(seed)), codecs.b64Encode(sealed)) == KeyAndIv(key64, iv64)
  {
    var msg := JObject(map["key" := JString(key64), "iv" := JString(iv64)]);
    var priv := p.generatePrivateKey(seed);
    assert priv != [];
    assert codecs.b64Decode(codecs.b64Encode(sealed)) == Some(sealed);
    assert p.oaepDecrypt(priv, sealed) == Some(KeyMessage(codecs, key64, iv64));
    assert codecs.utf8Decode(KeyMessage(codecs, key64, iv64)) == Some(codecs.dumps(msg));
    assert codecs.loads(codecs.dumps(msg)) == Some(msg);
  }

  /** The cipher `_get_aes_cipher` builds, or why it does not. */
  datatype Cipher =
    | NoCipher       // it returns None: no store, or key or IV missing or empty
    | CipherFault    // it raises: stored text is not base64, or the key or IV has the wrong length
    | AesCbc(key: Bytes, iv: Block)

  /** AES accepts 128-, 192- and 256-bit keys. */
  predicate ValidAesKey(key: Bytes) {
    |key| == 16 || |key| == 24 || |key| == 32
  }

  /** The cipher for the texts GET returned for a session's key and IV. */
  function CipherFrom(codecs: Codecs, keyText: Option<string>, ivText: Option<string>): (c: Cipher)
    ensures c.NoCipher? <==> keyText.None? || keyText.value == "" || ivText.None? || ivText.value == ""
  {
    if keyText.None? || keyText.value == "" || ivText.None? || ivText.value == "" then NoCipher
    else
      match (codecs.b64Decode(keyText.value), codecs.b64Decode(ivText.value))
      case (Some(key), Some(iv)) => if ValidAesKey(key) && |iv| == BlockSize then AesCbc(key, iv) else CipherFault
      case _ => CipherFault
  }

  /** `_get_aes_cipher(session_id)` against a reachable store: a cipher needs both halves present. */
  function CipherAt(codecs: Codecs, entries: Entries, now: int, sessionId: string): (c: Cipher)
    ensures !c.NoCipher? ==> Exists(entries, now, AesKeyName(sessionId)) && Exists(entries, now, AesIvName(sessionId))
  {
    CipherFrom(codecs, Get(entries, now, AesKeyName(sessionId)), Get(entries, now, AesIvName(sessionId)))
  }

  /** Once the handshake has bound a session, its cipher is the client's key and IV until the hour is up. */
  lemma BoundSessionCipher(codecs: Codecs, entries: Entries, written: int, now: int, sessionId: string, key: Bytes, iv: Block)
    requires Lawful(codecs) && ValidAesKey(key)
    requires now < written + AesKeyTtl
    ensures CipherAt(codecs, Bind(entries, written, sessionId, KeyAndIv(codecs.b64Encode(key), codecs.b64Encode(iv))), now, sessionId) == AesCbc(key, iv)
  {
    Base64NonEmpty(codecs, key);
    Base64NonEmpty(codecs, iv);
    NamesDistinct(sessionId, sessionId);
  }

  /** After the hour an expired session is indistinguishable from one that never existed. */
  lemma BindingExpires(codecs: Codecs, entries: Entries, written: int, now: int, sessionId: string, m: KeyMaterial)
    requires m != Rejected
    requires now >= written + AesKeyTtl
    ensures CipherAt(codecs, Bind(entries, written, sessionId, m), now, sessionId) == NoCipher
  {
    NamesDistinct(sessionId, sessionId);
  }

  /** Binding a session again replaces the earlier binding completely. */
  lemma RebindReplaces(entries: Entries, first: int, second: int, sessionId: string, k1: string, v1: string, k2: string, v2: string)
    ensures Bind(Bind(entries, first, sessionId, KeyAndIv(k1, v1)), second, sessionId, KeyAndIv(k2, v2)) ==
            Bind(entries, second, sessionId, KeyAndIv(k2, v2))
  {
    NamesDistinct(sessionId, sessionId);
  }

  /** Binding one session leaves every other session's cipher as it was. */
  lemma BindIsolated(codecs: Codecs, entries: Entries, written: int, now: int, sessionId: string, other: string, m: KeyMaterial)
    requires other != sessionId
    ensures CipherAt(codecs, Bind(entries, written, sessionId, m), now, other) == CipherAt(codecs, entries, now, other)
  {
    NamesDistinct(sessionId, other);
    NamesDistinct(other, sessionId);
  }

  /** A key-only write on a session without a live IV leaves it without a cipher. */
  lemma KeyOnlyIsAbsent(codecs: Codecs, entries: Entries, written: int, now: int, sessionId: string, key: string)
    requires Get(entries, now, AesIvName(sessionId)).None?
    ensures CipherAt(codecs, Bind(entries, written, sessionId, KeyOnly(key)), now, sessionId) == NoCipher
  {
    NamesDistinct(sessionId, sessionId);
  }

  /** But on a session that still holds an IV, a key-only write pairs the new key with the old IV. */
  lemma KeyOnlyKeepsOldIv(codecs: Codecs, entries: Entries, written: int, now: int, sessionId: string, key: string)
    requires now < written + AesKeyTtl
    ensures CipherAt(codecs, Bind(entries, written, sessionId, KeyOnly(key)), now, sessionId) ==
            CipherFrom(codecs, Some(key), Get(entries, now, AesIvName(sessionId)))
  {
    NamesDistinct(sessionId, sessionId);
  }

  /** Why `encrypt_data` or `decrypt_data` raises. */
  datatype CryptoError =
    | CipherUnavailable          // ValueError: no cipher for the session
    | MalformedKeyMaterial       // the stored key or IV does not make an AES-CBC cipher
    | MalformedBase64            // the sealed text is not base64
    | NotBlockAligned            // the ciphertext is not a whole number of blocks
    | InvalidPadding(e: PadError)
    | InvalidUtf8

  /** The bytes `encrypt_data` encrypts: JSON text for a dict or list, `str(data)` otherwise, in UTF-8. */
  function SealedText(codecs: Codecs, data: Json): string {
    if data.IsStructured() then codecs.dumps(data) else PyStr(data)
  }

  /** `encrypt_data` once the cipher lookup is done. */
  function Seal(codecs: Codecs, p: RsaAes, cipher: Cipher, data: Json): (r: Result<string, CryptoError>)
    ensures cipher.NoCipher? ==> r == Failure(CipherUnavailable)
    ensures cipher.CipherFault? ==> r == Failure(MalformedKeyMaterial)
    ensures cipher.AesCbc? ==> r.Success?
  {
    match cipher
    case NoCipher => Failure(CipherUnavailable)
    case CipherFault => Failure(MalformedKeyMaterial)
    case AesCbc(key, iv) =>
      Success(codecs.b64Encode(Cbc.Encrypt(p.aesEncrypt, key, iv, Pad(codecs.utf8Encode(SealedText(codecs, data))))))
  }

  /** What `decrypt_data` returns for decrypted text: the parsed JSON, or the text itself when it does not parse. */
  function ParseOrText(codecs: Codecs, text: string): Json {
    match codecs.loads(text)
    case Some(v) => v
    case None => JString(text)
  }

  /** `decrypt_data` once the cipher lookup is done. */
  function Open(codecs: Codecs, p: RsaAes, cipher: Cipher, sealed: string): (r: Result<Json, CryptoError>)
    ensures cipher.NoCipher? ==> r == Failure(CipherUnavailable)
    ensures cipher.CipherFault? ==> r == Failure(MalformedKeyMaterial)
    ensures cipher.AesCbc? && codecs.b64Decode(sealed).None? ==> r == Failure(MalformedBase64)
  {
    match cipher
    case NoCipher => Failure(CipherUnavailable)
    case CipherFault => Failure(MalformedKeyMaterial)
    case AesCbc(key, iv) =>
      match codecs.b64Decode(sealed)
      case None => Failure(MalformedBase64)
      case Some(ciphertext) =>
        if |ciphertext| % BlockSize != 0 then Failure(NotBlockAligned)
        else
          match Unpad(Cbc.Decrypt(p.aesDecrypt, key, iv, ciphertext))
          case Failure(e) => Failure(InvalidPadding(e))
          case Success(plain) =>
            match codecs.utf8Decode(plain)
            case None => Failure(InvalidUtf8)
            case Some(text) => Success(ParseOrText(codecs, text))
  }

  /**
   * Opening what was sealed under the same cipher gives back a dict or list unchanged; a
   * scalar comes back as its `str` text, or as what that text parses to when it is JSON.
   */
  lemma OpenSeal(codecs: Codecs, p: RsaAes, key: Bytes, iv: Block, data: Json)
    requires Lawful(codecs) && CryptoLawful(p)
    ensures var c := AesCbc(key, iv);
      Open(codecs, p, c, Seal(codecs, p, c, data).value) == Success(ParseOrText(codecs, SealedText(codecs, data)))
  {
    var text := SealedText(codecs, data);
    var padded := Pad(codecs.utf8Encode(text));
    var ct := Cbc.Encrypt(p.aesEncrypt, key, iv, padded);
    Cbc.DecryptEncrypt(p.aesEncrypt, p.aesDecrypt, key, iv, padded);
    UnpadPad(codecs.utf8Encode(text));
  }

  /** In particular every dict and list survives the round trip. */
  lemma OpenSealStructured(codecs: Codecs, p: RsaAes, key: Bytes, iv: Block, data: Json)
    requires Lawful(codecs) && CryptoLawful(p)
    requires data.IsStructured()
    ensures var c := AesCbc(key, iv);
      Open(codecs, p, c, Seal(codecs, p, c, data).value) == Success(data)
  {
    OpenSeal(codecs, p, key, iv, data);
  }

  /** And a scalar whose text is not JSON comes back as that text. */
  lemma OpenSealScalar(codecs: Codecs, p: RsaAes, key: Bytes, iv: Block, data: Json)
    requires Lawful(codecs) && CryptoLawful(p)
    requires !data.IsStructured() && codecs.loads(PyStr(data)).None?
    ensures var c := AesCbc(key, iv);
      Open(codecs, p, c, Seal(codecs, p, c, data).value) == Success(JString(PyStr(data)))
  {
    OpenSeal(codecs, p, key, iv, data);
  }

  /**
   * The whole server side of a session: with the key pair generated from `seed` stored, a
   * blob the browser built from `key` and `iv` is accepted, and for the next hour the session
   * opens what it seals.
   */
  lemma HandshakeThenRoundTrip(codecs: Codecs, p: RsaAes, entries: Entries, written: int, now: int, seed: nat,
                               sessionId: string, key: Bytes, iv: Block, sealed: Bytes, data: Json)
    requires Lawful(codecs) && CryptoLawful(p) && ValidAesKey(key)
    requires Get(entries, written, RsaPrivateKeyName) == Some(p.generatePrivateKey(seed))
    requires p.oaepEncrypt(p.spkiOf(p.generatePrivateKey(seed)), KeyMessage(codecs, codecs.b64Encode(key), codecs.b64Encode(iv))) == Some(sealed)
    requires now < written + AesKeyTtl
    requires data.IsStructured()
    ensures var m := UnwrapKeyMaterial(codecs, p, Get(entries, written, RsaPrivateKeyName), codecs.b64Encode(sealed));
      var c := CipherAt(codecs, Bind(entries, written, sessionId, m), now, sessionId);
      m.KeyAndIv? && c == AesCbc(key, iv) && Open(codecs, p, c, Seal(codecs, p, c, data).value) == Success(data)
  {
    UnwrapAcceptsKeyMessage(codecs, p, seed, codecs.b64Encode(key), codecs.b64Encode(iv), sealed);
    BoundSessionCipher(codecs, entries, written, now, sessionId, key, iv);
    OpenSealStructured(codecs, p, key, iv, data);
  }

  /** The server's session crypto manager over a shared Redis connection. */
  class RedisCryptoManager {
    /** The cached Redis connection; null when none could be made. */
    const client: RedisStore?
    const codecs: Codecs
    const primitives: RsaAes

    /** Connects and makes sure a key pair exists. */
    constructor(client: RedisStore?, codecs: Codecs, primitives: RsaAes, seed: nat)
      modifies client
      ensures this.client == client && this.codecs == codecs && this.primitives == primitives
      ensures client != null ==> client.now == old(client.now)
      ensures client != null ==> client.entries == AfterKeyInit(codecs, primitives, old(client.entries), old(client.now), false, seed)
    {
      this.client := client;
      this.codecs := codecs;
      this.primitives := primitives;
      new;
      InitializeRsaKeys(false, seed);
    }

    /** `_initialize_rsa_keys`: generate and store a pair when forced or when no private key is stored. */
    method InitializeRsaKeys(forceNew: bool, seed: nat)
      modifies client
      ensures client != null ==> client.now == old(client.now)
      ensures client != null ==> client.entries == AfterKeyInit(codecs, primitives, old(client.entries), old(client.now), forceNew, seed)
    {
      if client == null {
        return;
      }
      if forceNew || !Exists(client.entries, client.now, RsaPrivateKeyName) {
        var privatePem := primitives.generatePrivateKey(seed);
        var publicPem := PublicKeyPem(codecs, primitives.spkiOf(privatePem));
        client.Set(RsaPrivateKeyName, privatePem, None);
        client.Set(RsaPublicKeyName, publicPem, None);
      }
    }

    /** `get_public_key_and_session`: the stored public key and a fresh session id, or neither. */
    function GetPublicKeyAndSession(freshId: string): (r: (Option<string>, Option<string>))
      reads client
      ensures r.0.Some? <==> r.1.Some?
      ensures r.0.Some? <==> client != null && Get(client.entries, client.now, RsaPublicKeyName).Some?
                                             && Get(client.entries, client.now, RsaPublicKeyName).value != ""
      ensures r.0.Some? ==> r.0 == Get(client.entries, client.now, RsaPublicKeyName) && r.1 == Some(freshId)
    {
      if client == null then (None, None)
      else
        var publicPem := Get(client.entries, client.now, RsaPublicKeyName);
        if publicPem.None? || publicPem.value == "" then (None, None) else (publicPem, Some(freshId))
    }

    /** `store_and_decrypt_aes_key`: unwrap the client's key and IV and bind them to the session. */
    method StoreAndDecryptAesKey(encryptedKeyBase64: string, sessionId: string) returns (ok: bool)
      modifies client
      ensures client == null ==> !ok
      ensures client != null ==> client.now == old(client.now)
      ensures client != null ==>
        var m := UnwrapKeyMaterial(codecs, primitives, Get(old(client.entries), old(client.now), RsaPrivateKeyName), encryptedKeyBase64);
        ok == m.KeyAndIv? && client.entries == Bind(old(client.entries), old(client.now), sessionId, m)
    {
      if client == null {
        return false;
      }
      var privatePem := Get(client.entries, client.now, RsaPrivateKeyName);
      var m := UnwrapKeyMaterial(codecs, primitives, privatePem, encryptedKeyBase64);
      match m
      case Rejected =>
        ok := false;
      case KeyOnly(key) =>
        client.Set(AesKeyName(sessionId), key, Some(AesKeyTtl));
        ok := false;
      case KeyAndIv(key, iv) =>
        client.Set(AesKeyName(sessionId), key, Some(AesKeyTtl));
        client.Set(AesIvName(sessionId), iv, Some(AesKeyTtl));
        ok := true;
    }

    /** `_get_aes_cipher`. */
    function GetAesCipher(sessionId: string): (c: Cipher)
      reads client
      ensures client == null ==> c == NoCipher
      ensures !c.NoCipher? ==> client != null && Exists(client.entries, client.now, AesKeyName(sessionId))
                                              && Exists(client.entries, client.now, AesIvName(sessionId))
    {
      if client == null then NoCipher else CipherAt(codecs, client.entries, client.now, sessionId)
    }

    /** `encrypt_data`: raises (Failure) unless the session has a cipher. */
    function EncryptData(data: Json, sessionId: string): (r: Result<string, CryptoError>)
      reads client
      ensures r.Success? <==> GetAesCipher(sessionId).AesCbc?
    {
      Seal(codecs, primitives, GetAesCipher(sessionId), data)
    }

    /** `decrypt_data`: raises (Failure) unless the session has a cipher and the text decrypts and unpads. */
    function DecryptData(encryptedDataBase64: string, sessionId: string): (r: Result<Json, CryptoError>)
      reads client
      ensures r.Success? ==> GetAesCipher(sessionId).AesCbc?
    {
      Open(codecs, primitives, GetAesCipher(sessionId), encryptedDataBase64)
    }
  }

  /** Against one store state, `decrypt_data` inverts `encrypt_data` for dicts and lists. */
  lemma DecryptEncrypt(m: RedisCryptoManager, data: Json, sessionId: string)
    requires Lawful(m.codecs) && CryptoLawful(m.primitives)
    requires data.IsStructured()
    requires m.EncryptData(data, sessionId).Success?
    ensures m.DecryptData(m.EncryptData(data, sessionId).value, sessionId) == Success(data)
  {
    var c := m.GetAesCipher(sessionId);
    OpenSealStructured(m.codecs, m.primitives, c.key, c.iv, data);
  }
}
