/** The exceptions raised by the region codec, the chunk codec and the
    recompression policy. Each alternative names the condition; the
    comment gives the Python exception class the source raises for it. */
module Errors {

  datatype Error =
      /** HeadersErrorException: the first read of a region file did not
          return 8192 bytes; carries the length it did return. */
    | HeadersError(length: nat)
      /** ValueError from Chunk.__init__: a tag outside {1, 2, 3, 4, 127}. */
    | InvalidScheme(tag: int)
      /** RuntimeError: the custom scheme 127 is never supported. */
    | CustomSchemeUnsupported
      /** RuntimeError from decompress_chunk: an unknown stored tag. */
    | UnknownScheme(tag: int)
      /** ValueError from the recompress methods: an unknown target tag. */
    | UnknownTarget(tag: int)
      /** NotImplementedError: LZ4 (tag 4) is neither decoded nor encoded. */
    | Lz4NotImplemented
      /** UnboundLocalError: a local variable read before any branch set it. */
    | UnboundLocal(name: string)
      /** An error raised by the gzip or zlib decoder for this tag. */
    | DecompressFailed(tag: int)
      /** An error raised by the gzip, zlib or Zopfli encoder for this tag. */
    | CompressFailed(tag: int)
      /** struct.error: fewer than 5 bytes were read at a chunk's sector
          offset, so its length field and scheme tag cannot be unpacked. */
    | TruncatedChunkHeader(available: nat)
      /** OverflowError: the next sector offset does not fit in 3 bytes. */
    | ChunkOffsetOverflow(offset: nat)
      /** OverflowError: a chunk needs more than 255 sectors. */
    | ChunkSizeOverflow(sections: nat)
      /** OverflowError: a header pointer above 256^4. */
    | ChunkPointerOverflow(pointer: nat)
      /** ValueError from calculate_chunk_location_offset; 'X' or 'Z'. */
    | CoordinateOutOfBounds(axis: char)
}
