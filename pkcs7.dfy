/**
 * PKCS#7 padding (section 6.3 of RFC 5652) as `RedisCryptoManager._pkcs7_pad` and
 * `_pkcs7_unpad` write it by hand for 16-byte AES blocks.
 */
module Pkcs7 {
  import opened Wrappers
  import opened Bytes

  /** Why `_pkcs7_unpad` raises: `data[-1]` on empty input, a bad length byte, or bad padding bytes. */
  datatype PadError = EmptyInput | InvalidPaddingSize | InvalidPaddingBytes

  /** `n` copies of the byte `n`: a well-formed padding of length `n`. */
  function Padding(n: nat): (r: Bytes)
    requires n < 256
    ensures |r| == n
  {
    seq(n, _ => n as bv8)
  }

  /** Appends 16 - |data| % 16 bytes, each holding that count. */
  function Pad(data: Bytes): (r: Bytes)
    ensures |r| % BlockSize == 0
    ensures |data| < |r| <= |data| + BlockSize
    ensures r[..|data|] == data
    ensures forall k :: |data| <= k < |r| ==> r[k] as int == |r| - |data|
  {
    var n := BlockSize - |data| % BlockSize;
    data + Padding(n)
  }

  /**
   * Reads the padding length from the last byte, rejects a length of 0 or above 16, rejects
   * a tail that is not that many copies of the length (also when the input is shorter than
   * the length), and otherwise drops the padding.
   */
  function Unpad(data: Bytes): (r: Result<Bytes, PadError>)
    ensures |data| == 0 ==> r == Failure(EmptyInput)
    ensures |data| > 0 && (data[|data| - 1] == 0 || data[|data| - 1] as int > BlockSize) ==> r == Failure(InvalidPaddingSize)
    ensures r.Success? ==> |data| - BlockSize <= |r.value| < |data|
    ensures r.Success? ==> data == r.value + Padding(|data| - |r.value|)
  {
    if |data| == 0 then Failure(EmptyInput)
    else
      var n := data[|data| - 1] as int;
      if n > BlockSize || n == 0 then Failure(InvalidPaddingSize)
      else if n > |data| || data[|data| - n..] != Padding(n) then Failure(InvalidPaddingBytes)
      else Success(data[..|data| - n])
  }

  /** Any string followed by a well-formed padding of length 1 to 16 unpads to that string. */
  lemma UnpadValid(p: Bytes, n: nat)
    requires 1 <= n <= BlockSize
    ensures Unpad(p + Padding(n)) == Success(p)
  {
    var pad := Padding(n);
    var d := p + pad;
    assert d[|d| - 1] == pad[n - 1] == n as bv8;
    assert (n as bv8) as int == n;
    assert d[|d| - n..] == pad;
    assert d[..|d| - n] == p;
  }

  /** Unpadding undoes padding, for every byte string. */
  lemma UnpadPad(data: Bytes)
    ensures Unpad(Pad(data)) == Success(data)
  {
    UnpadValid(data, BlockSize - |data| % BlockSize);
  }

  /** On block-aligned input the converse holds too: what unpads to `p` is exactly `Pad(p)`. */
  lemma PadUnpad(data: Bytes, p: Bytes)
    requires |data| % BlockSize == 0
    requires Unpad(data) == Success(p)
    ensures Pad(p) == data
  {
    var n := |data| - |p|;
    assert n == BlockSize - |p| % BlockSize;
  }

  /** A block-aligned string is accepted exactly when it is the padding of some string. */
  lemma AcceptsExactlyPadded(data: Bytes)
    requires |data| % BlockSize == 0
    ensures Unpad(data).Success? <==> exists p :: Pad(p) == data
  {
    if Unpad(data).Success? {
      PadUnpad(data, Unpad(data).value);
    }
    if exists p :: Pad(p) == data {
      var p :| Pad(p) == data;
      UnpadPad(p);
    }
  }
}
