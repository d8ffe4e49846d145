# Legal-support assistant: secure channel, legal search helpers and the feedback loop

This project models four parts of the legal-support assistant in Dafny and proves properties
of the model.

- **The server's session crypto manager** (`RedisCryptoManager`). It keeps one RSA key pair in
  Redis under two fixed names. It hands out the public key with a fresh session id. It unwraps
  a browser's AES key and IV (RSA-OAEP with SHA-256) and binds them to the session for 3600
  seconds. It seals and opens payloads with AES-CBC and hand-written PKCS#7 padding. Redis is
  a map from key to value and optional expiry time, read against an explicit clock
  (`KeyStore`). PKCS#7 (`Pkcs7`) and the CBC chaining (`Cbc`) are concrete. The AES block
  function, RSA, base64, UTF-8 and JSON are function-valued parameters whose round-trip laws
  are stated as ghost predicates (`Codecs.Lawful`, `CryptoUtils.CryptoLawful`) and required
  by the lemmas that use them.
- **The browser's counterpart** (`SecureCommunication` and the conversion helpers). The
  byte/binary-string loops around `btoa`/`atob`, PEM armour stripping, the key exchange and
  the `isInitialized` gate are modelled in `BrowserCrypto`. The fetch replies, the generated
  key and IV, and whether the server accepted the exchange are parameters.
- **The deterministic helpers of the legal search tool** (`LegalSearch`). These are query
  normalisation with whole-word abbreviation expansion, the keyword query of the last
  fallback (concepts sorted by length), filter-dict conversion, hit formatting with defaults,
  and the fallback sequence of `_run`. The embedding-and-search call is a function parameter.
- **The iterate-until-confident loop** (`FeedbackLoop`, `Feedback.process_feedback`). The
  search and causal processors are functions of the round number and their inputs. The model
  covers the coercion of `needs_reanalysis`, the accumulation of feedback suggestions, the
  reading of a fenced JSON `raw` answer, the swallowing of exceptions, and the stopping rule.

Each file that changes state step by step in the source is imperative here.
`RedisCryptoManager` updates a `RedisStore` object. `SecureCommunication` and `LocalStorage`
are classes whose methods assign their fields. The loops of `arrayBufferToBase64`,
`base64ToArrayBuffer`, `convertPemToBinary`, `_preprocess_query`,
`_extract_keywords_for_fallback`, `_parse_filter_dict`, `hybrid_search` and `process_feedback`
are `while`/`for` loops. Each of them is proved against a specification function, and the
properties are proved about that function.

Behaviour of the code that the model keeps as written:

- **Partial handshake.** `store_and_decrypt_aes_key` writes `aes_key:<sid>` before it reads
  `key_data['iv']`. A decrypted message with a `key` but no usable `iv` therefore leaves a
  key-only binding and returns False (`KeyOnly`). On a fresh session the cipher lookup treats
  this as absent (`KeyOnlyIsAbsent`). On a session that still holds an IV, the new key is
  paired with the old IV (`KeyOnlyKeepsOldIv`). The system's design asks for a fail-closed
  handshake with no partial binding; the code does not do that, and the model follows the
  code.
- **Key and IV lengths are not checked at the handshake.** Any strings are stored. A key that
  does not decode to 16, 24 or 32 bytes only fails when a cipher is built (`CipherFault`).
- **Scalar payloads do not round-trip as values.** The server seals `str(v)`, so a scalar
  comes back as its Python text, or as what that text parses to when it is JSON.
- **Failed re-initialisation in the browser.** `initialize` assigns `serverPublicKey`,
  `sessionId` and `aesIv` before the steps that can fail, and undoes nothing. A failed second
  call therefore leaves a new IV next to the old key, with `isInitialized` still true.
- **An exception in the causal half of a round keeps the round's new `search_data`.** It is
  assigned before the causal processor runs. `needs_reanalysis` is only a local of the round
  here. An exception after it has become falsy does not stop the loop, because the `return`
  that would have stopped it is never reached.

## Model

| member | source | states |
|---|---|---|
| Pkcs7.Pad | app/utils/crypto_utils.py:175-179 | the output keeps the input as prefix, is 1 to 16 bytes longer, has a length that is a multiple of 16, and every added byte equals the number of bytes added |
| Pkcs7.Unpad | app/utils/crypto_utils.py:181-187 | empty input fails; a last byte of 0 or above 16 fails; a success drops between 1 and 16 bytes that form a well-formed padding |
| Pkcs7.UnpadValid | app/utils/crypto_utils.py:181-187 | any byte string followed by n copies of n (1 ≤ n ≤ 16) unpads to that byte string |
| Pkcs7.UnpadPad | app/utils/crypto_utils.py:175-187 | unpadding undoes padding for every byte string |
| Pkcs7.PadUnpad | app/utils/crypto_utils.py:175-187 | on block-aligned input, whatever unpads to p is exactly the padding of p |
| Pkcs7.AcceptsExactlyPadded | app/utils/crypto_utils.py:181-187 | a block-aligned byte string is accepted exactly when it is the padding of some byte string |
| Cbc.Encrypt | app/utils/crypto_utils.py:153-155 | CBC encryption keeps the length of the padded plaintext |
| Cbc.Decrypt | app/utils/crypto_utils.py:165-167 | CBC decryption keeps the length of the ciphertext |
| Cbc.DecryptEncrypt | app/utils/crypto_utils.py:137-141 | with a block decryption that inverts the block encryption, CBC decryption under the same key and IV recovers the plaintext |
| KeyStore.Get | app/utils/crypto_utils.py:127-128 | GET returns a value exactly when the key is stored and its expiry time has not come, and then the stored value |
| KeyStore.Put | app/utils/crypto_utils.py:114-115 | SET adds the key to the store's keys and leaves the entry of every other key as it was |
| KeyStore.GetPut | app/utils/crypto_utils.py:114-115 | read-your-writes: the written key reads the new value until its time to live runs out and then reads as missing; every other key reads as before |
| KeyStore.RedisStore.Set | app/utils/crypto_utils.py:70-71 | the store's entries become the SET of the old entries; the clock is unchanged |
| CryptoUtils.NamesDistinct | app/utils/crypto_utils.py:114-115 | the per-session key and IV names never collide with each other, with other sessions' names, or with the key pair's names |
| CryptoUtils.KeyInitWritesPair | app/utils/crypto_utils.py:51-71 | when forced or when no private key is stored, both halves of a freshly generated pair are stored and read back at every later time, and the public half is the PEM of the private half's public key |
| CryptoUtils.KeyInitKeepsExisting | app/utils/crypto_utils.py:51 | when not forced and a private key is stored, the store is left exactly as it was |
| CryptoUtils.RedisText | app/utils/crypto_utils.py:114-115 | a value handed to SET is stored exactly when it is a string or an integer (an integer as its decimal text) |
| CryptoUtils.StoredField | app/utils/crypto_utils.py:114-115 | a field of the decrypted message can be written exactly when it is present and SET accepts its value |
| CryptoUtils.ParseKeyMaterial | app/utils/crypto_utils.py:112-115 | invalid UTF-8, malformed JSON, a JSON value that is not an object, and a missing or unstorable `key` all reject before any write; otherwise the key is written, with the IV exactly when `iv` is present and storable, and the written texts are those fields as SET stores them |
| CryptoUtils.IntegerFieldText | app/utils/crypto_utils.py:114-115 | an integer `key` or `iv` is stored as decimal text that reads back as that integer |
| CryptoUtils.UnwrapKeyMaterial | app/utils/crypto_utils.py:86-121 | the handshake is rejected when the private key is missing or empty, when the blob is not base64, or when OAEP decryption fails; past those steps its outcome is the reading of the decrypted message by ParseKeyMaterial |
| CryptoUtils.UnwrapAcceptsKeyMessage | app/utils/crypto_utils.py:96-115 | a blob the browser built under the stored pair's public key unwraps to exactly the browser's key and IV |
| CryptoUtils.CipherFrom | app/utils/crypto_utils.py:127-141 | there is no cipher exactly when the key or the IV text is missing or empty |
| CryptoUtils.CipherAt | app/utils/crypto_utils.py:123-132 | a cipher is found only when both the key and the IV entry of the session are live |
| CryptoUtils.BoundSessionCipher | app/utils/crypto_utils.py:114-141 | for the hour after a successful handshake the session's cipher is AES-CBC under the client's key and IV |
| CryptoUtils.BindingExpires | app/utils/crypto_utils.py:114-115 | after 3600 seconds an accepted binding gives no cipher, exactly like a session that never existed |
| CryptoUtils.RebindReplaces | app/utils/crypto_utils.py:114-115 | binding a session again replaces the earlier binding completely |
| CryptoUtils.BindIsolated | app/utils/crypto_utils.py:114-115 | binding one session leaves every other session's cipher as it was |
| CryptoUtils.KeyOnlyIsAbsent | app/utils/crypto_utils.py:127-132 | a key-only write on a session without a live IV leaves the session without a cipher |
| CryptoUtils.KeyOnlyKeepsOldIv | app/utils/crypto_utils.py:114-115 | a key-only write on a session that still holds an IV pairs the new key with the old IV |
| CryptoUtils.Seal | app/utils/crypto_utils.py:143-157 | sealing fails with the missing-cipher error when there is no cipher, fails on malformed key material, and succeeds under a cipher |
| CryptoUtils.Open | app/utils/crypto_utils.py:159-173 | opening fails with the missing-cipher error without a cipher, fails on malformed key material, and fails on text that is not base64 |
| CryptoUtils.OpenSeal | app/utils/crypto_utils.py:143-173 | opening what was sealed under the same cipher gives a dict or list back unchanged, and a scalar as its text or what that text parses to |
| CryptoUtils.OpenSealStructured | app/utils/crypto_utils.py:148-171 | every dict and list survives sealing and opening |
| CryptoUtils.OpenSealScalar | app/utils/crypto_utils.py:151-173 | a scalar whose text is not JSON comes back as that text |
| CryptoUtils.HandshakeThenRoundTrip | app/utils/crypto_utils.py:86-173 | with the generated pair stored, the browser's blob is accepted, and for the next hour the session opens every dict or list it seals |
| CryptoUtils.RedisCryptoManager.constructor | app/utils/crypto_utils.py:23-25 | construction runs the key-pair initialisation without forcing, against a reachable store |
| CryptoUtils.RedisCryptoManager.InitializeRsaKeys | app/utils/crypto_utils.py:45-71 | without a store nothing happens; otherwise the store becomes the key-pair initialisation of the old store and the clock is unchanged |
| CryptoUtils.RedisCryptoManager.GetPublicKeyAndSession | app/utils/crypto_utils.py:74-84 | both parts are present or both are absent; they are present exactly when the store is reachable and holds the public key, and then they are that key and the fresh id |
| CryptoUtils.RedisCryptoManager.StoreAndDecryptAesKey | app/utils/crypto_utils.py:86-121 | without a store it returns False; otherwise it returns True exactly when both key and IV were unwrapped, and the store holds the writes the unwrapped material allows (none, key only, or both) |
| CryptoUtils.RedisCryptoManager.GetAesCipher | app/utils/crypto_utils.py:123-141 | no store gives no cipher; a cipher implies that both the key entry and the IV entry of the session are live |
| CryptoUtils.RedisCryptoManager.EncryptData | app/utils/crypto_utils.py:143-157 | encryption succeeds exactly when the session has an AES-CBC cipher |
| CryptoUtils.RedisCryptoManager.DecryptData | app/utils/crypto_utils.py:159-173 | decryption succeeds only when the session has an AES-CBC cipher |
| CryptoUtils.DecryptEncrypt | app/utils/crypto_utils.py:143-173 | against one store state, decrypting what was encrypted gives every dict and list back |
| Text.TrimBy | app/crews/feedback.py:73 | stripping never lengthens, leaves no stripped character at either end, keeps a string without such characters, and gives "" exactly for an all-space string; the result is the part of `s` left after removing a run of stripped characters from each end |
| Text.RemoveAll | app/crews/feedback.py:73 | replacing a pattern by "" never lengthens, and leaves a string without the pattern unchanged |
| Text.SplitJoin | app/web/crypto.js:21 | the pieces of a split, joined with the separator, give the string back |
| Text.DigitsRoundTrip | app/utils/crypto_utils.py:114-115 | reading back the decimal digits of a number gives the number |
| BrowserCrypto.ByteChar | app/web/crypto.js:5 | the character for a byte is below U+0100 and stands for that byte |
| BrowserCrypto.Latin1 | app/web/crypto.js:4-6 | the binary string has one character per byte, each standing for its byte |
| BrowserCrypto.Latin1Bytes | app/web/crypto.js:14-16 | each byte of the buffer is the code of the matching character modulo 256 |
| BrowserCrypto.Btoa | app/web/crypto.js:7 | `btoa` succeeds exactly when every character is below U+0100 |
| BrowserCrypto.Atob | app/web/crypto.js:11 | `atob` succeeds exactly when the text decodes, and then gives one character per decoded byte |
| BrowserCrypto.ArrayBufferToBase64 | app/web/crypto.js:1-8 | the result is the base64 of the buffer, and decoding it gives the buffer back |
| BrowserCrypto.Base64ToArrayBuffer | app/web/crypto.js:10-18 | the result is the bytes the text decodes to, None where `atob` throws |
| BrowserCrypto.KeptText | app/web/crypto.js:24-27 | a line contributes its trimmed text when that text is non-empty and the line holds neither PEM marker, and nothing otherwise |
| BrowserCrypto.ConvertPemToBinary | app/web/crypto.js:20-31 | the loop yields the decoding of the kept lines' text concatenated in order |
| BrowserCrypto.SplitPemLines | app/web/crypto.js:21 | splitting 64-character PEM lines at newlines gives those lines back |
| BrowserCrypto.PemToBinaryOfPublicKey | app/web/crypto.js:20-31 | the browser reads back exactly the DER key the server wrapped in PEM |
| BrowserCrypto.Member | app/web/crypto.js:50-51 | a property of a reply that is not an object reads as null |
| BrowserCrypto.WrapKey | app/web/crypto.js:62-91 | a public key that is not a string makes the key wrap fail |
| BrowserCrypto.WrapKeyAccepted | app/web/crypto.js:62-91 | for a reply carrying the server's public PEM, the wrapped key unwraps on the server to the browser's key and IV |
| BrowserCrypto.OpenFor | app/web/crypto.js:148-166 | text that is not base64 is rejected; a success implies the ciphertext is block-aligned |
| BrowserCrypto.ServerOpensBrowserSeal | app/web/crypto.js:119-136 | the server opens what the browser sealed: null, arrays and objects unchanged |
| BrowserCrypto.BrowserOpensServerSeal | app/web/crypto.js:148-166 | the browser opens what the server sealed; dicts and lists come back unchanged |
| BrowserCrypto.LocalStorage.SetItem | app/web/crypto.js:110-111 | a write the storage refuses throws and stores nothing; otherwise the item is set and every other item is kept |
| BrowserCrypto.SecureCommunication.constructor | app/web/crypto.js:34-40 | a new object has every key field null and is not initialised |
| BrowserCrypto.SecureCommunication.Initialize | app/web/crypto.js:42-117 | a failed fetch changes nothing; a reply's fields and the IV are assigned before later failures; a failure before the exchange is accepted keeps the key, the flag and the storage; once it is accepted the key and the flag are set, and the call succeeds exactly when neither storage write throws, a throwing write leaving the items written before it |
| BrowserCrypto.SecureCommunication.EncryptData | app/web/crypto.js:119-141 | not initialised rejects; otherwise the result is the AES-CBC seal of the value's text under the object's key and IV |
| BrowserCrypto.SecureCommunication.DecryptData | app/web/crypto.js:143-171 | not initialised rejects; otherwise the result is the opening under the object's key and IV |
| BrowserCrypto.SessionInterop | app/web/crypto.js:42-166 | a whole session: the browser's wrapped key is accepted by the server, and for the next hour the server's cipher is the browser's key and IV and opens what the browser seals |
| LegalSearch.SubWordUnchangedIff | app/tools/qdrant_vector_search_tool.py:255 | a whole-word substitution with a longer expansion changes the text exactly when the word occurs whole in it |
| LegalSearch.PreprocessQuery | app/tools/qdrant_vector_search_tool.py:245-257 | the loop yields the lower-cased, stripped query with each abbreviation expanded in turn |
| LegalSearch.ExpandUnchangedIff | app/tools/qdrant_vector_search_tool.py:254-255 | expansion never shortens the text, and leaves it unchanged exactly when no abbreviation occurs as a whole word |
| LegalSearch.PreprocessedPlainIff | app/tools/qdrant_vector_search_tool.py:245-257 | a query without abbreviations is only lower-cased and stripped; any abbreviation makes it longer |
| LegalSearch.SpacedName | app/tools/qdrant_vector_search_tool.py:266 | every '_' becomes a space and every other character is kept |
| LegalSearch.FirstArticle | app/tools/qdrant_vector_search_tool.py:269-271 | an article match captures a non-empty run of digits |
| LegalSearch.FirstArticleFinds | app/tools/qdrant_vector_search_tool.py:269-271 | when `(madde\|md\.?)\s*(\d+)` matches anywhere from the start position on, the search finds a number |
| LegalSearch.FirstArticleLeftmost | app/tools/qdrant_vector_search_tool.py:269-271 | the number found is the capture of a match at some position, and no match starts before that position |
| LegalSearch.AddAreaConcepts | app/tools/qdrant_vector_search_tool.py:264-266 | the loop adds exactly the spaced names of the areas with a keyword in the query |
| LegalSearch.AddKeywordConcepts | app/tools/qdrant_vector_search_tool.py:273-275 | the loop adds exactly the keywords that occur in the query |
| LegalSearch.CollectConcepts | app/tools/qdrant_vector_search_tool.py:260-275 | the concepts are the areas, the first article reference and the keywords found |
| LegalSearch.InsertByLength | app/tools/qdrant_vector_search_tool.py:281 | inserting keeps the order longest first and adds exactly the new string |
| LegalSearch.InsertKeepsOrdering | app/tools/qdrant_vector_search_tool.py:281 | inserting a new string into an ordering of a set, keeping lengths descending, gives an ordering of the set with that string |
| LegalSearch.OrderByLength | app/tools/qdrant_vector_search_tool.py:281 | the result holds each concept exactly once, longest first |
| LegalSearch.OrderingSize | app/tools/qdrant_vector_search_tool.py:281 | the ordering is as long as the set of concepts |
| LegalSearch.ExtractKeywordsForFallback | app/tools/qdrant_vector_search_tool.py:259-281 | fewer than two concepts give the query back; otherwise the concepts longest first, joined by single spaces |
| LegalSearch.ConceptsStartWithLetter | app/tools/qdrant_vector_search_tool.py:264-275 | every concept is non-empty and starts with a non-space character |
| LegalSearch.KeywordQueryNotBlank | app/tools/qdrant_vector_search_tool.py:184 | with two or more concepts the keyword query is never blank |
| LegalSearch.ConditionFor | app/tools/qdrant_vector_search_tool.py:286-291 | a list gives MatchAny, a dict with gte or lte gives a range, anything else MatchValue, always on the entry's key |
| LegalSearch.ParseFilterDict | app/tools/qdrant_vector_search_tool.py:283-294 | an empty dict gives None; otherwise one condition per entry, in order |
| LegalSearch.HybridFilters | app/tools/qdrant_vector_search_tool.py:319-325 | exactly the truthy arguments become entries, under their fixed keys, at most three; no entry exactly when all are falsy |
| LegalSearch.PayloadGet | app/tools/qdrant_vector_search_tool.py:229-240 | a present payload key gives its value, a missing one the default |
| LegalSearch.FormatHit | app/tools/qdrant_vector_search_tool.py:226-243 | the result has exactly text, score and metadata; the text and each metadata field come from the payload or its default; the id is its text |
| LegalSearch.FormatHitsKeepText | app/tools/qdrant_vector_search_tool.py:217 | every formatted result has truthy text, and no hit is dropped exactly when every hit has text |
| LegalSearch.Searched | app/tools/qdrant_vector_search_tool.py:200-224 | an empty cleaned query gives no results, and every result has truthy text |
| LegalSearch.ExecuteSearch | app/tools/qdrant_vector_search_tool.py:193-224 | the method yields the results of the specification function |
| LegalSearch.LoweredThreshold | app/tools/qdrant_vector_search_tool.py:176 | the lowered threshold is 0.1 lower or the minimum, whichever is larger |
| LegalSearch.Run | app/tools/qdrant_vector_search_tool.py:149-191 | the error entry without a connection; otherwise the first non-empty result of the primary, lowered-threshold and keyword searches (only the primary without fallbacks), else [] |
| LegalSearch.RunFallbacks | app/tools/qdrant_vector_search_tool.py:172-191 | the fallbacks return the first non-empty of the lowered-threshold and keyword searches, else [] |
| LegalSearch.RunResultsHaveText | app/tools/qdrant_vector_search_tool.py:156-191 | with a connection every returned result has truthy text |
| LegalSearch.RunWithoutConcepts | app/tools/qdrant_vector_search_tool.py:183-191 | with fewer than two concepts no keyword search is tried |
| LegalSearch.HybridSearch | app/tools/qdrant_vector_search_tool.py:311-329 | the search runs with the truthy arguments as filter, or none when all are falsy, and the given limit |
| LegalSearch.SearchByLegalArea | app/tools/qdrant_vector_search_tool.py:296-299 | the search runs restricted to one legal area with the given limit |
| LegalSearch.SearchByArticle | app/tools/qdrant_vector_search_tool.py:301-304 | the search runs restricted to chunks citing any of the articles |
| LegalSearch.SearchByDocumentType | app/tools/qdrant_vector_search_tool.py:306-309 | the search runs restricted to one document type |
| FeedbackLoop.OriginalText | app/crews/feedback.py:27-31 | a string input is its own text; a dict with the ready-text key gives that value; anything else gives "" |
| FeedbackLoop.TopicOf | app/crews/feedback.py:44 | the topic is the input unless a truthy original text replaces it, and is falsy only when both are |
| FeedbackLoop.FencedPayload | app/crews/feedback.py:72-73 | a fenced JSON block whose body has no backquotes is read as its stripped body |
| FeedbackLoop.Reparse | app/crews/feedback.py:69-80 | without a string `raw`, or when the fence-stripped text does not decode, the dict is unchanged; a decoded object's keys overwrite the dict's and every other key is kept; a decoded value that is not an object raises |
| FeedbackLoop.MergeInto | app/crews/feedback.py:77-78 | the loop gives the union of the keys, the parsed values over them, and the old values elsewhere |
| FeedbackLoop.ReadRaw | app/crews/feedback.py:69-80 | the method yields the specification's reading of `raw` |
| FeedbackLoop.Coerce | app/crews/feedback.py:84-85 | a string becomes a boolean; any other value is kept |
| FeedbackLoop.LowerEqualsWord | app/crews/feedback.py:85 | a string lower-cases to a lower-case word exactly when it spells that word in any mix of cases |
| FeedbackLoop.NeedsFlag | app/crews/feedback.py:82-85 | a string flag asks for another round exactly when it spells "true" in any case; a missing flag does not |
| FeedbackLoop.Suggested | app/crews/feedback.py:87-90 | truthy suggestions are kept; falsy ones become `str()` of `iyileştirme_önerileri` when that key is present, and stay as they are otherwise |
| FeedbackLoop.AppendText | app/crews/feedback.py:97 | `+=` concatenates onto a string, extends a list by characters, and raises on anything else |
| FeedbackLoop.WithCritical | app/crews/feedback.py:92-99 | without truthy critical notes the suggestions are kept; otherwise truthy string suggestions become themselves followed by " Kritik eksikler: " and the note's text, falsy suggestions become "Kritik eksikler: " and the note's text alone, list suggestions are extended by exactly the characters of " Kritik eksikler: " and the note's text, and a raise happens exactly for truthy suggestions that are neither string nor list |
| FeedbackLoop.NoteCritical | app/crews/feedback.py:92-99 | the method yields the specification's suggestions |
| FeedbackLoop.Digest | app/crews/feedback.py:63-107 | a causal answer that is not a dict, or whose `raw` does not read as an object, goes on unchanged; otherwise the round settles exactly when appending the critical notes does not raise and the coerced `needs_reanalysis` is falsy, and then returns the round's search data; a round that goes on carries the coerced flag, the suggestions (as noted, or as before the raising `+=`) and the reparsed dict |
| FeedbackLoop.ReadCausal | app/crews/feedback.py:63-107 | the method yields the specification's round outcome |
| FeedbackLoop.Step | app/crews/feedback.py:42-115 | a raising search goes on unchanged; a settled round comes from a returned search and returns its output |
| FeedbackLoop.Attempt | app/crews/feedback.py:42-117 | the method yields the specification's round outcome |
| FeedbackLoop.Run | app/crews/feedback.py:39-124 | the loop runs at most the remaining rounds, all of them unless one settles |
| FeedbackLoop.FirstSettledIsReturned | app/crews/feedback.py:105-107 | the loop returns the search data of the first round that settles, after that many rounds |
| FeedbackLoop.RunExplained | app/crews/feedback.py:39-124 | a settled result is the search data of a settling round reached without earlier settling; an unsettled one is the search data after all rounds |
| FeedbackLoop.NoRounds | app/crews/feedback.py:24-124 | with no round to run the result is "Hata" |
| FeedbackLoop.SearchAlwaysFails | app/crews/feedback.py:42-124 | when every search raises, every round runs and the starting search data is returned |
| FeedbackLoop.SearchFailureSkipsRound | app/crews/feedback.py:113-117 | a raising search costs one round and changes nothing else |
| FeedbackLoop.CausalFailureKeepsSearch | app/crews/feedback.py:49-61 | a raising causal step costs one round and keeps the round's new search data |
| FeedbackLoop.Iterate | app/crews/feedback.py:39-124 | the `while` loop returns the value of the loop's specification |
| FeedbackLoop.Feedback.constructor | app/crews/feedback.py:7-10 | the processors and the iteration bound are stored |
| FeedbackLoop.Feedback.ProcessFeedback | app/crews/feedback.py:20-124 | a processor with a topic gets the original text; the result is the loop's value for the topic chosen from the input |

## Left out

- RSA key generation, RSA-OAEP, the AES block function, WebCrypto key generation, `getRandomValues` and `uuid4` are not implemented. They are function parameters (a seed stands for the randomness), with their laws required where a proof needs them.
- Base64, UTF-8 and JSON encoding and decoding are library calls. They are function parameters whose round-trip laws are required by the lemmas.
- `_get_redis_client` (environment variables, the connection, ping and the class-level cache) is left out. The manager holds a possibly-null `RedisStore`; null stands for a failed connection.
- The race between two first calls of `_initialize_rsa_keys` is a concurrency issue and is not modelled. Each call is atomic here.
- Logging, `print` and `console.error` are left out; they do not affect results.
- Similarity thresholds and scores are floats in the source. Thresholds are whole hundredths here, and JSON numbers are integers only.
- BrowserCrypto.BrowserOpensServerSeal: one lawful `dumps`/`loads` pair stands for both Python's `json` and JavaScript's `JSON`. The browser's `JSON.parse` reads numbers as doubles, which are exact only within ±2^53, so "dicts and lists come back unchanged" holds in the browser only when every integer in them is within that range. A larger integer comes back rounded.
- `str.lower()` is modelled for ASCII, Latin-1 and Latin Extended-A only. `\w` covers letters and digits up to U+024F. `\d` covers the ASCII digits only, while Python's matches every Unicode decimal digit (U+0663, U+FF13 and so on). Other scripts are not modelled.
- The tenacity retries of `_run` and `_execute_with_retry` are left out. A search call or a kickoff stands for its outcome after retries.
- The embedding model, the Qdrant client, GPU detection and the tool's initialisation are left out. The connection is a flag and the search is a function parameter.
- `Range(**value)` validation errors in `_parse_filter_dict` are not modelled. A range condition keeps the dict's `gte`/`lte` values.
- LegalSearch.ConditionFor, LegalSearch.ParseFilterDict and LegalSearch.Run: qdrant-client's `MatchValue` accepts only a bool, an integer or a string, and `MatchAny` only a list of all strings or all integers. Other values (null, a float, a dict without `gte`/`lte`, a mixed list) raise a validation error that escapes `_run`. The model builds a condition for every value and searches instead. The validation lives in the client library, which is not part of this model.
- In `crypto.js`, `fetch`, the async WebCrypto calls and the HTTP exchange are parameters: the parsed reply, the generated key and IV, and whether the exchange succeeded. JavaScript `undefined` is not told apart from null, and values JSON cannot hold are not modelled.
- `localStorage` is a map that is only written. Which writes throw is a fixed property of the storage object; a quota that changes over time is not modelled.
- The processors' `topic` attribute is set as in the source, but a kickoff does not read it. A `model_dump()` that raises is not modelled.
- FeedbackLoop.MergeInto: the source mutates `causal_data_dict` in place, and that dict may be shared with the processor's output. The model reassigns a map, so aliasing is not captured.
- `str()` of a dict or list is a parameter (`Python.strOfStructured`).
- The module-level singletons `crypto_manager` and `secureCommunication` are not modelled. Objects are constructed explicitly.
- A `max_iterations` that is not an integer is not modelled.
- LegalSearch.OrderByLength: Python iterates a set in an unspecified order. The model allows any order among concepts of equal length.
