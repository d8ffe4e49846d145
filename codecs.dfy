/**
 * The text and byte encodings both sides of the channel call into: UTF-8, base64 (section 4
 * of RFC 4648) and JSON. They are library code and enter the model as functions; `Lawful`
 * states the round trips the libraries guarantee, and every proof that needs one requires it.
 */
module Codecs {
  import opened Wrappers
  import opened Bytes
  import opened JsonModel

  datatype Codecs = Codecs(
    /** Python `str.encode('utf-8')`, JavaScript `TextEncoder.encode`. */
    utf8Encode: string -> Bytes,
    /** Python `bytes.decode('utf-8')`: strict, None where it raises. */
    utf8Decode: Bytes -> Option<string>,
    /** JavaScript `TextDecoder.decode`: never fails, drops a leading byte order mark. */
    utf8DecodeLossy: Bytes -> string,
    /** Python `base64.b64encode`, and JavaScript `btoa` applied to one character per byte. */
    b64Encode: Bytes -> string,
    /** Python `base64.b64decode`: None where it raises. */
    b64Decode: string -> Option<Bytes>,
    /** JavaScript `atob` (forgiving base64): None where it throws. */
    atobDecode: string -> Option<Bytes>,
    /** Python `json.dumps(v, ensure_ascii=False)`, JavaScript `JSON.stringify`. */
    dumps: Json -> string,
    /** Python `json.loads`, JavaScript `JSON.parse`: None where they raise a decode error. */
    loads: string -> Option<Json>
  )

  const ByteOrderMark: char := 0xFEFF as char

  /** What `TextDecoder` yields for the UTF-8 encoding of `s`: `s` without a leading byte order mark. */
  function DropBom(s: string): string {
    if s != [] && s[0] == ByteOrderMark then s[1..] else s
  }

  /** The characters of base64 text: letters, digits, '+', '/' and the pad '='. */
  predicate IsBase64Char(c: char) {
    ('A' <= c <= 'Z') || ('a' <= c <= 'z') || ('0' <= c <= '9') || c == '+' || c == '/' || c == '='
  }

  /** The guarantees of the encoding libraries that the model relies on. */
  ghost predicate Lawful(c: Codecs) {
    && (forall s :: c.utf8Decode(c.utf8Encode(s)) == Some(s))
    && (forall s :: c.utf8DecodeLossy(c.utf8Encode(s)) == DropBom(s))
    && (forall b :: c.b64Decode(c.b64Encode(b)) == Some(b))
    && (forall b :: c.atobDecode(c.b64Encode(b)) == Some(b))
    && (forall b :: |c.b64Encode(b)| == 4 * ((|b| + 2) / 3))
    && (forall b, k :: 0 <= k < |c.b64Encode(b)| ==> IsBase64Char(c.b64Encode(b)[k]))
    && (forall v :: c.loads(c.dumps(v)) == Some(v))
    && (forall v :: c.dumps(v) != [] && c.dumps(v)[0] != ByteOrderMark)
  }

  /** The base64 text of a non-empty byte string is non-empty (it is never a falsy Python string). */
  lemma Base64NonEmpty(c: Codecs, b: Bytes)
    requires Lawful(c)
    requires b != []
    ensures c.b64Encode(b) != []
  {
    assert |c.b64Encode(b)| == 4 * ((|b| + 2) / 3);
  }
}
