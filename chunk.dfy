/** One chunk of a region file (chunk.py): its stored payload, the scheme
    tag that says how the payload is compressed, and the dispatch that
    decodes the payload and re-encodes it under another scheme. */
module Chunks {
  import opened Wrappers
  import opened Bytes
  import opened Errors
  import opened Codecs

  /** GZip, zlib, uncompressed, LZ4 and custom (chunk.py:11). */
  const ValidCompressionSchemes: set<int> := {1, 2, 3, 4, 127}

  /** The tags a constructed chunk can carry: every valid scheme but the
      custom one, which the constructor rejects. */
  const ConstructibleSchemes: set<int> := {1, 2, 3, 4}

  /** The opaque 4-byte timestamp of a chunk, copied verbatim. */
  type Timestamp = s: seq<byte> | |s| == 4 witness [0, 0, 0, 0]

  /** The state of a chunk object as a value. */
  datatype ChunkValue = ChunkValue(x: int, z: int, timestamp: Timestamp, data: seq<byte>, compression: int)

  /** The checks Chunk.__init__ makes before it sets any field: a tag
      outside the valid schemes is a ValueError, the custom tag a
      RuntimeError; LZ4 is accepted. */
  function InitCheck(compression: int): (r: Option<Error>)
    ensures r.None? <==> compression in ConstructibleSchemes
    ensures compression !in ValidCompressionSchemes ==> r == Some(InvalidScheme(compression))
    ensures compression in ValidCompressionSchemes - ConstructibleSchemes ==> r == Some(CustomSchemeUnsupported)
  {
    if compression !in ValidCompressionSchemes then Some(InvalidScheme(compression))
    else if compression == 127 then Some(CustomSchemeUnsupported)
    else None
  }

  /** calculate_sections: `-(-len(data) // 4096)`. Python's `//` floors,
      and so does Dafny's `/` for a positive divisor, so the expression is
      kept as written. The result is the number of 4096-byte sectors the
      payload alone fills: the ceiling of its length over 4096. */
  function Sections(data: seq<byte>): (n: nat)
    ensures |data| <= n * SectorSize < |data| + SectorSize
  {
    -(-|data| / SectorSize)
  }

  /** The payload fills zero sectors exactly when it is empty, and one
      sector exactly when its length is between 1 and 4096. */
  lemma SectionsSmall(data: seq<byte>)
    ensures Sections(data) == 0 <==> |data| == 0
    ensures Sections(data) == 1 <==> 1 <= |data| <= SectorSize
  {
  }

  /** decompress_chunk as a function of the chunk's tag and payload. Only
      the gzip and zlib branches can succeed: the uncompressed branch is a
      `pass` that leaves the local `data` unbound, so its `return data`
      raises UnboundLocalError. */
  function DecompressChunk(codecs: Codecs, compression: int, data: seq<byte>): (r: Result<seq<byte>, Error>)
    ensures r.Ok? ==> compression in {1, 2}
    ensures compression == 1 ==> r.Ok? == codecs.gzipDecompress(data).Some?
    ensures compression == 2 ==> r.Ok? == codecs.zlibDecompress(data).Some?
    ensures compression == 1 && r.Ok? ==> r.value == codecs.gzipDecompress(data).value
    ensures compression == 2 && r.Ok? ==> r.value == codecs.zlibDecompress(data).value
    ensures compression in {1, 2} && r.Err? ==> r == Err(DecompressFailed(compression))
    ensures compression == 3 ==> r == Err(UnboundLocal("data"))
    ensures compression == 4 ==> r == Err(Lz4NotImplemented)
    ensures compression !in ConstructibleSchemes ==> r.Err? && r.error in {CustomSchemeUnsupported, UnknownScheme(compression)}
  {
    if compression == 1 then
      match codecs.gzipDecompress(data)
      case None => Err(DecompressFailed(1))
      case Some(d) => Ok(d)
    else if compression == 2 then
      match codecs.zlibDecompress(data)
      case None => Err(DecompressFailed(2))
      case Some(d) => Ok(d)
    else if compression == 3 then
      Err(UnboundLocal("data"))
    else if compression == 4 then
      Err(Lz4NotImplemented)
    else if compression == 127 then
      Err(CustomSchemeUnsupported)
    else
      Err(UnknownScheme(compression))
  }

  /** Lifts an encoder's result into the error model. */
  function Encoded(res: Option<seq<byte>>, tag: int): Result<seq<byte>, Error> {
    match res
    case None => Err(CompressFailed(tag))
    case Some(d) => Ok(d)
  }

  /** What recompress_chunk makes of a chunk: decode it, encode the
      result under `target` at `level`, and replace the payload and the
      tag together. Any failure leaves the chunk as it was, since the two
      fields are only assigned after every step has succeeded. */
  function Recompress(codecs: Codecs, c: ChunkValue, target: int, level: int): (r: Result<ChunkValue, Error>)
    ensures r.Ok? <==> DecompressChunk(codecs, c.compression, c.data).Ok? && target in {1, 2, 3}
                       && (target == 1 ==> codecs.gzipCompress(DecompressChunk(codecs, c.compression, c.data).value, level).Some?)
                       && (target == 2 ==> codecs.zlibCompress(DecompressChunk(codecs, c.compression, c.data).value, level).Some?)
    ensures r.Ok? ==> r.value == c.(data := r.value.data, compression := target)
    ensures r.Ok? && target == 1 ==> r.value.data == codecs.gzipCompress(DecompressChunk(codecs, c.compression, c.data).value, level).value
    ensures r.Ok? && target == 2 ==> r.value.data == codecs.zlibCompress(DecompressChunk(codecs, c.compression, c.data).value, level).value
    ensures r.Ok? && target == 3 ==> r.value.data == DecompressChunk(codecs, c.compression, c.data).value
    ensures DecompressChunk(codecs, c.compression, c.data).Ok? && target in {1, 2} && r.Err? ==> r == Err(CompressFailed(target))
    ensures DecompressChunk(codecs, c.compression, c.data).Err? ==> r == Err(DecompressChunk(codecs, c.compression, c.data).error)
    ensures DecompressChunk(codecs, c.compression, c.data).Ok? && target == 4 ==> r == Err(Lz4NotImplemented)
    ensures DecompressChunk(codecs, c.compression, c.data).Ok? && target == 127 ==> r == Err(CustomSchemeUnsupported)
    ensures DecompressChunk(codecs, c.compression, c.data).Ok? && target !in ValidCompressionSchemes ==> r == Err(UnknownTarget(target))
  {
    match DecompressChunk(codecs, c.compression, c.data)
    case Err(e) => Err(e)
    case Ok(data) =>
      var res :=
        if target == 1 then Encoded(codecs.gzipCompress(data, level), 1)
        else if target == 2 then Encoded(codecs.zlibCompress(data, level), 2)
        else if target == 3 then Ok(data)
        else if target == 4 then Err(Lz4NotImplemented)
        else if target == 127 then Err(CustomSchemeUnsupported)
        else Err(UnknownTarget(target));
      match res
      case Err(e) => Err(e)
      case Ok(d) => Ok(c.(data := d, compression := target))
  }

  /** What recompress_chunk_zopfli makes of a chunk. The uncompressed
      target sets `res` but not `compression_format`, and the compressor
      is then built from the unbound `compression_format`, so that target
      always fails; 127 and every other unknown tag are ValueErrors. */
  function RecompressZopfli(codecs: Codecs, c: ChunkValue, target: int, options: ZopfliOptions): (r: Result<ChunkValue, Error>)
    ensures r.Ok? <==> DecompressChunk(codecs, c.compression, c.data).Ok? && target in {1, 2}
                       && codecs.zopfliCompress(if target == 1 then ZopfliGzip else ZopfliZlib,
                                                DecompressChunk(codecs, c.compression, c.data).value, options).Some?
    ensures r.Ok? ==> r.value == c.(data := r.value.data, compression := target)
    ensures r.Ok? ==> r.value.data == codecs.zopfliCompress(if target == 1 then ZopfliGzip else ZopfliZlib,
                                                           DecompressChunk(codecs, c.compression, c.data).value, options).value
    ensures DecompressChunk(codecs, c.compression, c.data).Err? ==> r == Err(DecompressChunk(codecs, c.compression, c.data).error)
    ensures DecompressChunk(codecs, c.compression, c.data).Ok? && target in {1, 2} && r.Err? ==> r == Err(CompressFailed(target))
    ensures DecompressChunk(codecs, c.compression, c.data).Ok? && target == 3 ==> r == Err(UnboundLocal("compression_format"))
    ensures DecompressChunk(codecs, c.compression, c.data).Ok? && target == 4 ==> r == Err(Lz4NotImplemented)
    ensures DecompressChunk(codecs, c.compression, c.data).Ok? && target !in ConstructibleSchemes ==> r == Err(UnknownTarget(target))
  {
    match DecompressChunk(codecs, c.compression, c.data)
    case Err(e) => Err(e)
    case Ok(data) =>
      var format :=
        if target == 1 then Ok(ZopfliGzip)
        else if target == 2 then Ok(ZopfliZlib)
        else if target == 3 then Err(UnboundLocal("compression_format"))
        else if target == 4 then Err(Lz4NotImplemented)
        else Err(UnknownTarget(target));
      match format
      case Err(e) => Err(e)
      case Ok(f) =>
        match Encoded(codecs.zopfliCompress(f, data, options), target)
        case Err(e) => Err(e)
        case Ok(d) => Ok(c.(data := d, compression := target))
  }

  /** A recompression that succeeds leaves a tag a chunk can carry, so a
      recompressed chunk can be recompressed again. */
  lemma RecompressKeepsConstructible(codecs: Codecs, c: ChunkValue, target: int, level: int, options: ZopfliOptions)
    ensures Recompress(codecs, c, target, level).Ok? ==> Recompress(codecs, c, target, level).value.compression in ConstructibleSchemes
    ensures RecompressZopfli(codecs, c, target, options).Ok? ==> RecompressZopfli(codecs, c, target, options).value.compression in ConstructibleSchemes
  {
  }

  class Chunk {
    const x: int
    const z: int
    const timestamp: Timestamp
    var data: seq<byte>
    var compression: int

    /** Every chunk object carries a tag its constructor accepts. */
    ghost predicate Valid()
      reads this
    {
      compression in ConstructibleSchemes
    }

    ghost function Value(): ChunkValue
      reads this
    {
      ChunkValue(x, z, timestamp, data, compression)
    }

    /** Chunk.__init__ once InitCheck has passed; the rejected tags are
        the error path of InitCheck, which every caller consults first. */
    constructor (x: int, z: int, timestamp: Timestamp, data: seq<byte>, compression: int)
      requires InitCheck(compression).None?
      ensures Valid()
      ensures Value() == ChunkValue(x, z, timestamp, data, compression)
    {
      this.x := x;
      this.z := z;
      this.timestamp := timestamp;
      this.data := data;
      this.compression := compression;
    }

    /** recompress_chunk: only `data` and `compression` may change, and
        they change together, exactly as Recompress says. */
    method RecompressChunk(codecs: Codecs, target: int, level: int) returns (r: Outcome<Error>)
      requires Valid()
      modifies this`data, this`compression
      ensures Valid()
      ensures match Recompress(codecs, old(Value()), target, level)
              case Ok(c) => r == Pass && Value() == c
              case Err(e) => r == Fail(e) && Value() == old(Value())
    {
      var decoded := DecompressChunk(codecs, compression, data);
      if decoded.Err? {
        return Fail(decoded.error);
      }
      var plain := decoded.value;
      var res: seq<byte>;
      if target == 1 {
        var out := codecs.gzipCompress(plain, level);
        if out.None? {
          return Fail(CompressFailed(1));
        }
        res := out.value;
      } else if target == 2 {
        var out := codecs.zlibCompress(plain, level);
        if out.None? {
          return Fail(CompressFailed(2));
        }
        res := out.value;
      } else if target == 3 {
        res := plain;
      } else if target == 4 {
        return Fail(Lz4NotImplemented);
      } else if target == 127 {
        return Fail(CustomSchemeUnsupported);
      } else {
        return Fail(UnknownTarget(target));
      }
      compression := target;
      data := res;
      r := Pass;
    }

    /** recompress_chunk_zopfli, with the same all-or-nothing update. */
    method RecompressChunkZopfli(codecs: Codecs, target: int, iterations: int, blockSplitting: bool, blockSplittingMax: int)
      returns (r: Outcome<Error>)
      requires Valid()
      modifies this`data, this`compression
      ensures Valid()
      ensures match RecompressZopfli(codecs, old(Value()), target, ZopfliOptions(iterations, blockSplitting, blockSplittingMax))
              case Ok(c) => r == Pass && Value() == c
              case Err(e) => r == Fail(e) && Value() == old(Value())
    {
      var decoded := DecompressChunk(codecs, compression, data);
      if decoded.Err? {
        return Fail(decoded.error);
      }
      var plain := decoded.value;
      var format: ZopfliFormat;
      if target == 1 {
        format := ZopfliGzip;
      } else if target == 2 {
        format := ZopfliZlib;
      } else if target == 3 {
        return Fail(UnboundLocal("compression_format"));
      } else if target == 4 {
        return Fail(Lz4NotImplemented);
      } else {
        return Fail(UnknownTarget(target));
      }
      var out := codecs.zopfliCompress(format, plain, ZopfliOptions(iterations, blockSplitting, blockSplittingMax));
      if out.None? {
        return Fail(CompressFailed(target));
      }
      compression := target;
      data := out.value;
      r := Pass;
    }
  }
}
