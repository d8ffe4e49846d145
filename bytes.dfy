/** Byte strings, AES-sized blocks and the exclusive-or that CBC chaining uses. */
module Bytes {

  type Bytes = seq<bv8>

  /** The AES block length in bytes (128 bits). */
  const BlockSize: nat := 16

  /** A 16-byte block: the unit of AES and the length of a CBC initialisation vector. */
  type Block = b: Bytes | |b| == BlockSize witness seq(16, _ => 0)

  /** Byte-wise exclusive-or of two strings of equal length. */
  function Xor(a: Bytes, b: Bytes): (r: Bytes)
    requires |a| == |b|
    ensures |r| == |a|
    ensures forall i :: 0 <= i < |r| ==> r[i] == a[i] ^ b[i]
  {
    seq(|a|, i requires 0 <= i < |a| => a[i] ^ b[i])
  }

  /** Masking twice with the same string gives the original back. */
  lemma XorTwice(a: Bytes, b: Bytes)
    requires |a| == |b|
    ensures Xor(Xor(a, b), b) == a
  {
    var x := Xor(a, b);
    forall i | 0 <= i < |a|
      ensures Xor(x, b)[i] == a[i]
    {
      assert x[i] ^ b[i] == (a[i] ^ b[i]) ^ b[i];
    }
  }
}
