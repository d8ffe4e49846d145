/**
 * Cipher block chaining (section 6.2 of NIST SP 800-38A) over a keyed block cipher: what
 * `Cipher(algorithms.AES(key), modes.CBC(iv))` computes on the server and what WebCrypto's
 * "AES-CBC" computes in the browser before padding.
 */
module Cbc {
  import opened Bytes

  /** A keyed transformation of one 16-byte block (AES encryption or decryption). */
  type BlockFn = (Bytes, Block) -> Block

  /** The decryption undoes the encryption under every key. */
  ghost predicate Inverse(encrypt: BlockFn, decrypt: BlockFn) {
    forall key, b :: decrypt(key, encrypt(key, b)) == b
  }

  /** C_1 = E(P_1 xor IV), C_j = E(P_j xor C_(j-1)). */
  function Encrypt(encrypt: BlockFn, key: Bytes, iv: Block, plain: Bytes): (cipher: Bytes)
    requires |plain| % BlockSize == 0
    ensures |cipher| == |plain|
    decreases |plain|
  {
    if plain == [] then []
    else
      var c := encrypt(key, Xor(plain[..BlockSize], iv));
      c + Encrypt(encrypt, key, c, plain[BlockSize..])
  }

  /** P_1 = D(C_1) xor IV, P_j = D(C_j) xor C_(j-1). */
  function Decrypt(decrypt: BlockFn, key: Bytes, iv: Block, cipher: Bytes): (plain: Bytes)
    requires |cipher| % BlockSize == 0
    ensures |plain| == |cipher|
    decreases |cipher|
  {
    if cipher == [] then []
    else
      Xor(decrypt(key, cipher[..BlockSize]), iv) + Decrypt(decrypt, key, cipher[..BlockSize], cipher[BlockSize..])
  }

  /** Decrypting with the same key and IV recovers the plaintext. */
  lemma {:induction false} DecryptEncrypt(encrypt: BlockFn, decrypt: BlockFn, key: Bytes, iv: Block, plain: Bytes)
    requires Inverse(encrypt, decrypt)
    requires |plain| % BlockSize == 0
    ensures Decrypt(decrypt, key, iv, Encrypt(encrypt, key, iv, plain)) == plain
    decreases |plain|
  {
    if plain != [] {
      var p: Block := plain[..BlockSize];
      var c := encrypt(key, Xor(p, iv));
      var rest := Encrypt(encrypt, key, c, plain[BlockSize..]);
      var cipher: Bytes := c + rest;
      assert cipher[..BlockSize] == c && cipher[BlockSize..] == rest;
      XorTwice(p, iv);
      DecryptEncrypt(encrypt, decrypt, key, c, plain[BlockSize..]);
      assert plain == p + plain[BlockSize..];
    }
  }
}
