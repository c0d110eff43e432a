/** The foreign codecs the envelopes call, as parameters: a compressor
    (gzip or lz4) and the UTF-8 text codec.  Each is given by its two
    directions; the decoding direction fails on input that is not a valid
    stream.  Nothing is assumed about them except where a lemma demands that
    they invert each other. */
module Codecs {
  import opened Wrappers
  import opened Bytes

  datatype Compressor = Compressor(compress: seq<byte> -> seq<byte>, decompress: seq<byte> -> Option<seq<byte>>)

  /** Decompressing what was compressed gives it back. */
  ghost predicate Inverts(c: Compressor) {
    forall b :: c.decompress(c.compress(b)) == Some(b)
  }

  /** `str.encode('utf-8')` and `bytes.decode('utf-8')`. */
  datatype TextCodec = TextCodec(encode: string -> seq<byte>, decode: seq<byte> -> Option<string>)

  ghost predicate TextInverts(u: TextCodec) {
    forall s :: u.decode(u.encode(s)) == Some(s)
  }
}
