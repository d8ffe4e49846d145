/**
 * The browser half of the secure channel (`SecureCommunication`): converting between byte
 * buffers and base64, reading the server's PEM public key, the key exchange that creates the
 * session's AES-256 key and IV, and AES-CBC encryption and decryption through WebCrypto.
 */
module BrowserCrypto {
  import opened Wrappers
  import opened Bytes
  import opened Text
  import opened JsonModel
  import opened Codecs
  import opened Pkcs7
  import Cbc
  import opened KeyStore
  import opened CryptoUtils

  /** The byte a binary-string character stands for: its code modulo 256. */
  function CharByte(c: char): bv8 {
    var n := c as int;
    if n < 256 then n as bv8 else (n % 256) as bv8
  }

  /** The binary-string character standing for a byte. */
  function ByteChar(x: bv8): (c: char)
    ensures c as int < 256
    ensures CharByte(c) == x
  {
    (x as int) as char
  }

  /** The "binary string" JavaScript uses for bytes: one character per byte. */
  function Latin1(b: Bytes): (s: string)
    ensures |s| == |b|
    ensures forall k :: 0 <= k < |b| ==> s[k] == ByteChar(b[k])
  {
    seq(|b|, k requires 0 <= k < |b| => ByteChar(b[k]))
  }

  /** The bytes a binary string stands for. */
  function Latin1Bytes(s: string): (b: Bytes)
    ensures |b| == |s|
    ensures forall k :: 0 <= k < |s| ==> b[k] == CharByte(s[k])
  {
    seq(|s|, k requires 0 <= k < |s| => CharByte(s[k]))
  }

  lemma Latin1RoundTrip(b: Bytes)
    ensures Latin1Bytes(Latin1(b)) == b
  {
  }

  /** `btoa`: base64 of a binary string, None where a character is above U+00FF (it throws). */
  function Btoa(codecs: Codecs, binary: string): (r: Option<string>)
    ensures r.Some? <==> forall k :: 0 <= k < |binary| ==> binary[k] as int < 256
  {
    if forall k :: 0 <= k < |binary| ==> binary[k] as int < 256 then Some(codecs.b64Encode(Latin1Bytes(binary)))
    else None
  }

  /** `atob`: the binary string base64 text decodes to, None where it throws. */
  function Atob(codecs: Codecs, text: string): (r: Option<string>)
    ensures r.Some? <==> codecs.atobDecode(text).Some?
    ensures r.Some? ==> r.value == Latin1(codecs.atobDecode(text).value)
  {
    match codecs.atobDecode(text)
    case None => None
    case Some(b) => Some(Latin1(b))
  }

  /** `arrayBufferToBase64`: the base64 text of a buffer, built through a binary string. */
  method ArrayBufferToBase64(codecs: Codecs, bytes: Bytes) returns (r: string)
    ensures r == codecs.b64Encode(bytes)
    ensures Lawful(codecs) ==> codecs.atobDecode(r) == Some(bytes)
  {
    var binary := "";
    for i := 0 to |bytes|
      invariant binary == Latin1(bytes[..i])
    {
      binary := binary + [ByteChar(bytes[i])];
    }
    assert bytes[..|bytes|] == bytes;
    Latin1RoundTrip(bytes);
    r := Btoa(codecs, binary).value;
  }

  /** `base64ToArrayBuffer`: the bytes base64 text stands for, None where `atob` throws. */
  method Base64ToArrayBuffer(codecs: Codecs, text: string) returns (r: Option<Bytes>)
    ensures r == codecs.atobDecode(text)
  {
    var binary := Atob(codecs, text);
    if binary.None? {
      return None;
    }
    var s := binary.value;
    var buffer := new bv8[|s|];
    for i := 0 to |s|
      invariant forall k :: 0 <= k < i ==> buffer[k] == codecs.atobDecode(text).value[k]
    {
      buffer[i] := CharByte(s[i]);
    }
    assert buffer[..] == codecs.atobDecode(text).value;
    r := Some(buffer[..]);
  }

  /** What `convertPemToBinary` keeps of one line: its trimmed text, unless blank or a marker line. */
  function KeptText(line: string): (r: string)
    ensures r == [] || r == JsTrim(line)
    ensures r != [] <==> JsTrim(line) != [] && !Contains(line, PemBegin) && !Contains(line, PemEnd)
  {
    var trimmed := JsTrim(line);
    if |trimmed| > 0 && !Contains(line, PemBegin) && !Contains(line, PemEnd) then trimmed else []
  }

  /** The concatenation of `f` applied to each line, in order. */
  function ConcatMap(lines: seq<string>, f: string -> string): string {
    if lines == [] then [] else ConcatMap(lines[..|lines| - 1], f) + f(lines[|lines| - 1])
  }

  /** The base64 payload of a PEM document's lines: the kept text of each line, in order. */
  function PemPayload(lines: seq<string>): string {
    ConcatMap(lines, KeptText)
  }

  /** The DER bytes `convertPemToBinary` yields for a PEM text, None where it throws. */
  function PemToBinary(codecs: Codecs, pem: string): Option<Bytes> {
    codecs.atobDecode(PemPayload(Split(pem, '\n')))
  }

  /** `convertPemToBinary`. */
  method ConvertPemToBinary(codecs: Codecs, pem: string) returns (r: Option<Bytes>)
    ensures r == PemToBinary(codecs, pem)
  {
    var lines := Split(pem, '\n');
    var base64 := "";
    var i := 0;
    while i < |lines|
      invariant 0 <= i <= |lines|
      invariant base64 == ConcatMap(lines[..i], KeptText)
    {
      assert lines[..i + 1][..i] == lines[..i];
      assert ConcatMap(lines[..i + 1], KeptText) == base64 + KeptText(lines[i]);
      var trimmed := JsTrim(lines[i]);
      if |trimmed| > 0 && !Contains(lines[i], PemBegin) && !Contains(lines[i], PemEnd) {
        base64 := base64 + trimmed;
      }
      i := i + 1;
    }
    assert lines[..|lines|] == lines;
    r := Base64ToArrayBuffer(codecs, base64);
  }

  lemma {:induction false} ConcatMapAppend(a: seq<string>, b: seq<string>, f: string -> string)
    ensures ConcatMap(a + b, f) == ConcatMap(a, f) + ConcatMap(b, f)
    decreases |b|
  {
    if b == [] {
      assert a + b == a;
    } else {
      var b' := b[..|b| - 1];
      ConcatMapAppend(a, b', f);
      assert (a + b)[..|a + b| - 1] == a + b';
    }
  }

  /** Splitting text whose first line holds no separator gives that line, then the rest's pieces. */
  lemma {:induction false} SplitAfterLine(line: string, rest: string, sep: char)
    requires sep !in line
    ensures Split(line + [sep] + rest, sep) == [line] + Split(rest, sep)
    decreases |line|
  {
    if line == [] {
      assert line + [sep] + rest == [sep] + rest;
      assert ([sep] + rest)[1..] == rest;
    } else {
      var s := line + [sep] + rest;
      assert s[1..] == line[1..] + [sep] + rest;
      SplitAfterLine(line[1..], rest, sep);
      assert [line[0]] + line[1..] == line;
    }
  }

  /** The 64-character lines `PemLines` cuts base64 text into. */
  function PemChunks(text: string): seq<string>
    decreases |text|
  {
    if text == [] then []
    else if |text| <= PemLineLength then [text]
    else [text[..PemLineLength]] + PemChunks(text[PemLineLength..])
  }

  lemma {:induction false} SplitPemLines(text: string, tail: string)
    requires '\n' !in text
    ensures Split(PemLines(text) + tail, '\n') == PemChunks(text) + Split(tail, '\n')
    decreases |text|
  {
    if text == [] {
      assert PemLines(text) + tail == tail;
    } else if |text| <= PemLineLength {
      assert PemLines(text) + tail == text + ['\n'] + tail;
      SplitAfterLine(text, tail, '\n');
    } else {
      var head := text[..PemLineLength];
      var rest := text[PemLineLength..];
      assert '\n' !in head by {
        forall k | 0 <= k < |head| ensures head[k] != '\n' { assert head[k] == text[k]; }
      }
      assert '\n' !in rest by {
        forall k | 0 <= k < |rest| ensures rest[k] != '\n' { assert rest[k] == text[PemLineLength + k]; }
      }
      assert PemLines(text) + tail == head + ['\n'] + (PemLines(rest) + tail);
      SplitAfterLine(head, PemLines(rest) + tail, '\n');
      SplitPemLines(rest, tail);
    }
  }

  /** Text made only of base64 characters. */
  predicate IsBase64Text(text: string) {
    forall k :: 0 <= k < |text| ==> IsBase64Char(text[k])
  }

  /** A line of base64 text is kept whole. */
  lemma KeepsBase64Line(line: string)
    requires line != [] && IsBase64Text(line)
    ensures KeptText(line) == line
  {
    assert JsTrim(line) == line;
    NoMarkerInBase64(line, PemBegin);
    NoMarkerInBase64(line, PemEnd);
  }

  /** A PEM marker starts with '-', which base64 text never holds. */
  lemma NoMarkerInBase64(line: string, marker: string)
    requires marker != [] && marker[0] == '-'
    requires IsBase64Text(line)
    ensures !Contains(line, marker)
  {
    forall i | 0 <= i <= |line| - |marker|
      ensures !OccursAt(line, marker, i)
    {
      assert line[i..i + |marker|][0] == line[i];
    }
  }

  /** The marker lines and the empty line after the last newline contribute nothing. */
  lemma MarkerLinesDropped()
    ensures KeptText(PemBegin) == [] && KeptText(PemEnd) == [] && KeptText("") == []
  {
    assert OccursAt(PemBegin, PemBegin, 0) && OccursAt(PemEnd, PemEnd, 0);
  }

  /** Joining the 64-character lines of base64 text with any `f` that keeps such lines gives the text back. */
  lemma {:induction false} ConcatMapChunks(text: string, f: string -> string)
    requires IsBase64Text(text)
    requires forall line :: line != [] && IsBase64Text(line) ==> f(line) == line
    ensures ConcatMap(PemChunks(text), f) == text
    decreases |text|
  {
    if text == [] {
    } else if |text| <= PemLineLength {
      assert ConcatMap([text], f) == ConcatMap([], f) + f(text);
    } else {
      var head := text[..PemLineLength];
      var rest := text[PemLineLength..];
      assert IsBase64Text(head) by {
        forall k | 0 <= k < |head| ensures IsBase64Char(head[k]) { assert head[k] == text[k]; }
      }
      assert IsBase64Text(rest) by {
        forall k | 0 <= k < |rest| ensures IsBase64Char(rest[k]) { assert rest[k] == text[PemLineLength + k]; }
      }
      assert ConcatMap([head], f) == ConcatMap([], f) + f(head);
      ConcatMapAppend([head], PemChunks(rest), f);
      ConcatMapChunks(rest, f);
      assert head + rest == text;
    }
  }

  /** The payload of a PEM document's lines under any `f` that drops the marker and empty lines and keeps base64 lines. */
  lemma ConcatMapDocument(begin: string, text: string, end: string, f: string -> string)
    requires IsBase64Text(text)
    requires f(begin) == [] && f(end) == [] && f("") == []
    requires forall line :: line != [] && IsBase64Text(line) ==> f(line) == line
    ensures ConcatMap(PemDocumentLines(begin, text, end), f) == text
  {
    ConcatMapChunks(text, f);
    assert ConcatMap([begin], f) == ConcatMap([], f) + f(begin);
    assert ConcatMap([end, ""], f) == [] by {
      assert [end, ""][..1] == [end];
      assert ConcatMap([end], f) == ConcatMap([], f) + f(end);
    }
    ConcatMapAppend([begin], PemChunks(text), f);
    ConcatMapAppend([begin] + PemChunks(text), [end, ""], f);
  }

  /** The browser reads back exactly the DER key the server wrapped in PEM. */
  lemma PemToBinaryOfPublicKey(codecs: Codecs, der: Bytes)
    requires Lawful(codecs)
    ensures PemToBinary(codecs, PublicKeyPem(codecs, der)) == Some(der)
  {
    var text := codecs.b64Encode(der);
    assert IsBase64Text(text);
    assert '\n' !in text by {
      forall k | 0 <= k < |text| ensures text[k] != '\n' { assert IsBase64Char(text[k]); }
    }
    assert '\n' !in PemBegin && '\n' !in PemEnd;
    SplitPemDocument(PemBegin, text, PemEnd);
    MarkerLinesDropped();
    forall line | line != [] && IsBase64Text(line)
      ensures KeptText(line) == line
    {
      KeepsBase64Line(line);
    }
    ConcatMapDocument(PemBegin, text, PemEnd, KeptText);
  }

  /** The lines a PEM document splits into at its newlines. */
  function PemDocumentLines(begin: string, text: string, end: string): seq<string> {
    [begin] + PemChunks(text) + [end, ""]
  }

  lemma SplitPemDocument(begin: string, text: string, end: string)
    requires '\n' !in begin && '\n' !in text && '\n' !in end
    ensures Split(begin + "\n" + PemLines(text) + end + "\n", '\n') == PemDocumentLines(begin, text, end)
  {
    var tail := end + ['\n'] + [];
    var body := PemLines(text) + tail;
    assert begin + "\n" + PemLines(text) + end + "\n" == begin + ['\n'] + body;
    SplitAfterLine(begin, body, '\n');
    SplitPemLines(text, tail);
    SplitAfterLine(end, [], '\n');
  }

  /** A property of a parsed JSON reply; null stands for both null and undefined. */
  function Member(data: Json, name: string): (r: Json)
    ensures !data.JObject? ==> r == JNull
  {
    if data.JObject? && name in data.fields then data.fields[name] else JNull
  }

  /** The JSON body posted to `/api/exchange_key`. */
  datatype ExchangeRequest = ExchangeRequest(encryptedKey: string, sessionId: Json)

  /**
   * The wrapped key message the browser builds for a session key and IV under the public key
   * the server sent, None where reading the PEM, importing it or encrypting throws.
   */
  function WrapKey(codecs: Codecs, p: RsaAes, publicKey: Json, rawKey: Bytes, iv: Block): (r: Option<string>)
    ensures !publicKey.JString? ==> r == None
  {
    if !publicKey.JString? then None
    else
      match PemToBinary(codecs, publicKey.s)
      case None => None
      case Some(der) =>
        match p.oaepEncrypt(der, KeyMessage(codecs, codecs.b64Encode(rawKey), codecs.b64Encode(iv)))
        case None => None
        case Some(sealed) => Some(codecs.b64Encode(sealed))
  }

  /**
   * For a reply carrying the PEM of the server's stored key pair, the wrapped key the browser
   * sends unwraps on the server to exactly the browser's key and IV.
   */
  lemma WrapKeyAccepted(codecs: Codecs, p: RsaAes, seed: nat, rawKey: Bytes, iv: Block)
    requires Lawful(codecs) && CryptoLawful(p)
    requires p.oaepEncrypt(p.spkiOf(p.generatePrivateKey(seed)),
                           KeyMessage(codecs, codecs.b64Encode(rawKey), codecs.b64Encode(iv))).Some?
    ensures var publicPem := PublicKeyPem(codecs, p.spkiOf(p.generatePrivateKey(seed)));
      var wrapped := WrapKey(codecs, p, JString(publicPem), rawKey, iv);
      wrapped.Some? &&
      UnwrapKeyMaterial(codecs, p, Some(p.generatePrivateKey(seed)), wrapped.value) ==
        KeyAndIv(codecs.b64Encode(rawKey), codecs.b64Encode(iv))
  {
    var der := p.spkiOf(p.generatePrivateKey(seed));
    PemToBinaryOfPublicKey(codecs, der);
    var sealed := p.oaepEncrypt(der, KeyMessage(codecs, codecs.b64Encode(rawKey), codecs.b64Encode(iv))).value;
    UnwrapAcceptsKeyMessage(codecs, p, seed, codecs.b64Encode(rawKey), codecs.b64Encode(iv), sealed);
  }

  /** The text `encryptData` encrypts: `JSON.stringify` for null, arrays and objects, the value itself otherwise. */
  function BrowserText(codecs: Codecs, data: Json): string {
    if data.IsJsObject() then codecs.dumps(data) else JsStr(data)
  }

  /** What `encryptData` resolves to under a key and IV. */
  function SealFor(codecs: Codecs, p: RsaAes, key: Bytes, iv: Block, data: Json): string {
    codecs.b64Encode(Cbc.Encrypt(p.aesEncrypt, key, iv, Pad(codecs.utf8Encode(BrowserText(codecs, data)))))
  }

  /** Why `encryptData` or `decryptData` rejects. */
  datatype BrowserError =
    | NotInitialized     // 'Secure communication not initialized'
    | NotBase64          // `atob` throws
    | OperationFailed    // WebCrypto rejects: not whole blocks, or bad padding

  /** What `decryptData` resolves to under a key and IV. */
  function OpenFor(codecs: Codecs, p: RsaAes, key: Bytes, iv: Block, sealed: string): (r: Result<Json, BrowserError>)
    ensures codecs.atobDecode(sealed).None? ==> r == Failure(NotBase64)
    ensures r.Success? ==> |codecs.atobDecode(sealed).value| % BlockSize == 0
  {
    match codecs.atobDecode(sealed)
    case None => Failure(NotBase64)
    case Some(ciphertext) =>
      if |ciphertext| % BlockSize != 0 then Failure(OperationFailed)
      else
        match Unpad(Cbc.Decrypt(p.aesDecrypt, key, iv, ciphertext))
        case Failure(_) => Failure(OperationFailed)
        case Success(plain) => Success(ParseOrText(codecs, codecs.utf8DecodeLossy(plain)))
  }

  /** The server opens what the browser sealed: null, arrays and objects unchanged, other values as their text reads. */
  lemma ServerOpensBrowserSeal(codecs: Codecs, p: RsaAes, key: Bytes, iv: Block, data: Json)
    requires Lawful(codecs) && CryptoLawful(p)
    ensures Open(codecs, p, AesCbc(key, iv), SealFor(codecs, p, key, iv, data)) ==
            Success(ParseOrText(codecs, BrowserText(codecs, data)))
    ensures data.IsJsObject() ==> Open(codecs, p, AesCbc(key, iv), SealFor(codecs, p, key, iv, data)) == Success(data)
  {
    var plain := codecs.utf8Encode(BrowserText(codecs, data));
    Cbc.DecryptEncrypt(p.aesEncrypt, p.aesDecrypt, key, iv, Pad(plain));
    UnpadPad(plain);
  }

  /** The browser opens what the server sealed, except that a leading byte order mark is lost. */
  lemma BrowserOpensServerSeal(codecs: Codecs, p: RsaAes, key: Bytes, iv: Block, data: Json)
    requires Lawful(codecs) && CryptoLawful(p)
    ensures OpenFor(codecs, p, key, iv, Seal(codecs, p, AesCbc(key, iv), data).value) ==
            Success(ParseOrText(codecs, DropBom(SealedText(codecs, data))))
    ensures data.IsStructured() ==> OpenFor(codecs, p, key, iv, Seal(codecs, p, AesCbc(key, iv), data).value) == Success(data)
  {
    var plain := codecs.utf8Encode(SealedText(codecs, data));
    Cbc.DecryptEncrypt(p.aesEncrypt, p.aesDecrypt, key, iv, Pad(plain));
    UnpadPad(plain);
  }

  /**
   * Local storage, where a successful exchange leaves the session key and IV in base64.
   * `refuses` says which writes `setItem` throws on (a QuotaExceededError or a
   * SecurityError); such a write stores nothing.
   */
  class LocalStorage {
    var items: map<string, string>
    const refuses: (string, string) -> bool

    constructor(refuses: (string, string) -> bool)
      ensures items == map[] && this.refuses == refuses
    {
      items := map[];
      this.refuses := refuses;
    }

    /** `setItem`; `thrown` reports the exception. */
    method SetItem(key: string, value: string) returns (thrown: bool)
      modifies this
      ensures thrown == refuses(key, value)
      ensures items == if thrown then old(items) else old(items)[key := value]
    {
      thrown := refuses(key, value);
      if !thrown {
        items := items[key := value];
      }
    }
  }

  /** The page's `SecureCommunication` object. */
  class SecureCommunication {
    /** `serverPublicKey` and `sessionId` as the reply gave them; JNull before any reply. */
    var serverPublicKey: Json
    var sessionId: Json
    /** The raw bytes of the exported AES-256 key. */
    var aesKey: Option<Bytes>
    var aesIv: Option<Block>
    var isInitialized: bool

    /** Once initialized, a key and an IV are in place. */
    ghost predicate Valid()
      reads this
    {
      isInitialized ==> aesKey.Some? && aesIv.Some?
    }

    constructor()
      ensures Valid()
      ensures serverPublicKey == JNull && sessionId == JNull && aesKey == None && aesIv == None && !isInitialized
    {
      serverPublicKey := JNull;
      sessionId := JNull;
      aesKey := None;
      aesIv := None;
      isInitialized := false;
    }

    /**
     * `initialize`. `reply` is the parsed body of `/api/get_public_key` (None where the fetch
     * fails, the status is not ok or the body is not JSON); `rawKey` and `iv` are what key
     * generation and `getRandomValues` produce; `exchangeOk` answers whether the server
     * accepted the posted exchange request. The reply's fields and the IV are assigned before
     * the steps that can still fail, and nothing is undone on failure.
     */
    method Initialize(codecs: Codecs, p: RsaAes, storage: LocalStorage, reply: Option<Json>, rawKey: Bytes, iv: Block,
                      exchangeOk: ExchangeRequest -> bool) returns (ok: bool)
      requires Valid()
      modifies this, storage
      ensures Valid()
      ensures reply.None? || reply.value.JNull? ==> !ok && unchanged(this) && unchanged(storage)
      ensures reply.Some? && !reply.value.JNull? ==>
        && serverPublicKey == Member(reply.value, "public_key")
        && sessionId == Member(reply.value, "session_id")
        && aesIv == Some(iv)
        && var wrapped := WrapKey(codecs, p, serverPublicKey, rawKey, iv);
           var exchanged := wrapped.Some? && exchangeOk(ExchangeRequest(wrapped.value, sessionId));
           var key64, iv64 := codecs.b64Encode(rawKey), codecs.b64Encode(iv);
           // before the exchange is accepted nothing else changes
           && (!exchanged ==> !ok && aesKey == old(aesKey) && isInitialized == old(isInitialized) && unchanged(storage))
           // once it is, the key and the flag are set even when a storage write then throws
           && (exchanged ==> aesKey == Some(rawKey) && isInitialized)
           && (exchanged ==> ok == (!storage.refuses("aesKey", key64) && !storage.refuses("aesIv", iv64)))
           && (exchanged ==>
                 storage.items == (if storage.refuses("aesKey", key64) then old(storage.items)
                                   else if storage.refuses("aesIv", iv64) then old(storage.items)["aesKey" := key64]
                                   else old(storage.items)["aesKey" := key64]["aesIv" := iv64]))
      ensures ok ==> aesKey == Some(rawKey) && isInitialized
      ensures ok ==> storage.items == old(storage.items)["aesKey" := codecs.b64Encode(rawKey)]["aesIv" := codecs.b64Encode(iv)]
    {
      if reply.None? || reply.value.JNull? {
        return false;
      }
      serverPublicKey := Member(reply.value, "public_key");
      sessionId := Member(reply.value, "session_id");
      aesIv := Some(iv);
      var aesKeyBase64 := ArrayBufferToBase64(codecs, rawKey);
      var aesIvBase64 := ArrayBufferToBase64(codecs, iv);
      if !serverPublicKey.JString? {
        return false;
      }
      var der := ConvertPemToBinary(codecs, serverPublicKey.s);
      if der.None? {
        return false;
      }
      var sealed := p.oaepEncrypt(der.value, KeyMessage(codecs, aesKeyBase64, aesIvBase64));
      if sealed.None? {
        return false;
      }
      var encryptedKeyBase64 := ArrayBufferToBase64(codecs, sealed.value);
      if !exchangeOk(ExchangeRequest(encryptedKeyBase64, sessionId)) {
        return false;
      }
      aesKey := Some(rawKey);
      isInitialized := true;
      var thrown := storage.SetItem("aesKey", aesKeyBase64);
      if thrown {
        return false;
      }
      thrown := storage.SetItem("aesIv", aesIvBase64);
      ok := !thrown;
    }

    /** `encryptData`. */
    method EncryptData(codecs: Codecs, p: RsaAes, data: Json) returns (r: Result<string, BrowserError>)
      requires Valid()
      ensures !isInitialized ==> r == Failure(NotInitialized)
      ensures isInitialized ==> r == Success(SealFor(codecs, p, aesKey.value, aesIv.value, data))
    {
      if !isInitialized {
        return Failure(NotInitialized);
      }
      var dataString := if data.IsJsObject() then codecs.dumps(data) else JsStr(data);
      var encrypted := Cbc.Encrypt(p.aesEncrypt, aesKey.value, aesIv.value, Pad(codecs.utf8Encode(dataString)));
      var text := ArrayBufferToBase64(codecs, encrypted);
      r := Success(text);
    }

    /** `decryptData`. */
    method DecryptData(codecs: Codecs, p: RsaAes, encryptedBase64: string) returns (r: Result<Json, BrowserError>)
      requires Valid()
      ensures !isInitialized ==> r == Failure(NotInitialized)
      ensures isInitialized ==> r == OpenFor(codecs, p, aesKey.value, aesIv.value, encryptedBase64)
    {
      if !isInitialized {
        return Failure(NotInitialized);
      }
      var encrypted := Base64ToArrayBuffer(codecs, encryptedBase64);
      if encrypted.None? {
        return Failure(NotBase64);
      }
      var ciphertext := encrypted.value;
      if |ciphertext| % BlockSize != 0 {
        return Failure(OperationFailed);
      }
      var plain := Unpad(Cbc.Decrypt(p.aesDecrypt, aesKey.value, aesIv.value, ciphertext));
      if plain.Failure? {
        return Failure(OperationFailed);
      }
      var decrypted := codecs.utf8DecodeLossy(plain.value);
      r := Success(ParseOrText(codecs, decrypted));
    }
  }

  /**
   * A whole session: the server holds the key pair generated from `seed`; the browser wraps
   * its key and IV under the PEM the server sent; the server unwraps and binds them. For the
   * next hour the server's cipher for the session is the browser's key and IV, and a value
   * the browser seals the server opens to what the browser's text reads as.
   */
  lemma SessionInterop(codecs: Codecs, p: RsaAes, entries: Entries, written: int, now: int, seed: nat,
                       sessionId: string, rawKey: Bytes, iv: Block, data: Json)
    requires Lawful(codecs) && CryptoLawful(p) && |rawKey| == 32
    requires Get(entries, written, RsaPrivateKeyName) == Some(p.generatePrivateKey(seed))
    requires p.oaepEncrypt(p.spkiOf(p.generatePrivateKey(seed)),
                           KeyMessage(codecs, codecs.b64Encode(rawKey), codecs.b64Encode(iv))).Some?
    requires now < written + AesKeyTtl
    ensures var wrapped := WrapKey(codecs, p, JString(PublicKeyPem(codecs, p.spkiOf(p.generatePrivateKey(seed)))), rawKey, iv);
      && wrapped.Some?
      && var bound := Bind(entries, written, sessionId,
                           UnwrapKeyMaterial(codecs, p, Get(entries, written, RsaPrivateKeyName), wrapped.value));
         && CipherAt(codecs, bound, now, sessionId) == AesCbc(rawKey, iv)
         && Open(codecs, p, CipherAt(codecs, bound, now, sessionId), SealFor(codecs, p, rawKey, iv, data)) ==
              Success(ParseOrText(codecs, BrowserText(codecs, data)))
  {
    WrapKeyAccepted(codecs, p, seed, rawKey, iv);
    BoundSessionCipher(codecs, entries, written, now, sessionId, rawKey, iv);
    ServerOpensBrowserSeal(codecs, p, rawKey, iv, data);
  }
}
