/** The compression libraries the chunk codec calls (Python's gzip and
    zlib modules and the Zopfli binding). Their algorithms are not part of
    this model: each is an arbitrary total function that either yields
    bytes or fails (raises), and every operation that uses them takes the
    whole bundle as a parameter. */
module Codecs {
  import opened Wrappers
  import opened Bytes

  /** `zopfli.ZOPFLI_FORMAT_GZIP` and `zopfli.ZOPFLI_FORMAT_ZLIB`. */
  datatype ZopfliFormat = ZopfliGzip | ZopfliZlib

  /** The parameters of a `zopfli.ZopfliCompressor`. */
  datatype ZopfliOptions = ZopfliOptions(iterations: int, blockSplitting: bool, blockSplittingMax: int)

  datatype Codecs = Codecs(
    /** `gzip.decompress` */
    gzipDecompress: seq<byte> -> Option<seq<byte>>,
    /** `zlib.decompress` */
    zlibDecompress: seq<byte> -> Option<seq<byte>>,
    /** `gzip.compress(data, compresslevel=level)` */
    gzipCompress: (seq<byte>, int) -> Option<seq<byte>>,
    /** `zlib.compress(data, level=level)` */
    zlibCompress: (seq<byte>, int) -> Option<seq<byte>>,
    /** `cobj.compress(data) + cobj.flush()` on a fresh ZopfliCompressor */
    zopfliCompress: (ZopfliFormat, seq<byte>, ZopfliOptions) -> Option<seq<byte>>
  )
}
