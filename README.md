# Anvilord region recompression, modelled in Dafny

Anvilord shrinks Minecraft worlds. It reads each region file (the Anvil
`.mca` / McRegion `.mcr` container), recompresses the chunks inside it,
and writes the region back into an archive. This project models three
parts of that work and proves properties of them:

- **The region-file codec** (`region.py`). A region file has an
  8192-byte header: 1024 four-byte location entries (a 3-byte big-endian
  sector offset and a 1-byte sector count), then 1024 four-byte
  timestamps. After the header come 4096-byte sectors holding the chunks
  of a 32×32 grid. Each chunk is stored as a 4-byte big-endian length, a
  1-byte compression-scheme tag, the payload and zero padding.
  `read_from_file` is modelled as a parse of an in-memory image
  (`Regions.ParseImage`, run imperatively by
  `Regions.Region.ReadFromFile`). `compile_region_file` is an imperative
  loop (`Regions.Region.CompileRegionFile`) proved equal to a recursive
  specification (`Regions.Compile`). What the compiled bytes contain is
  proved in `RegionLayout` and `RegionRoundTrip`.
- **Chunks** (`chunk.py`). The module covers the scheme tags, the
  constructor's checks, `calculate_sections`, the decode dispatch and
  the two recompress methods, which update a chunk object in place
  (`Chunks.Chunk`).
- **The recompression policy** (`anvilord.py`). It covers the per-slot
  rule of `recompress_chunk`, `calculate_chunk_sections`, the sector
  accounting of `squash_region_file`, `Stats`, `display_time` and the
  scheme-name mapping. The source's module-level `args`, `stats` and
  `current_region` are parameters and results here: `Anvilord.Options`,
  `Anvilord.Stats` (a value threaded through the calls, starting from
  `InitialStats`) and a `Regions.Region` object.

The gzip, zlib and Zopfli libraries are arbitrary total functions that
either return bytes or fail (`Codecs.Codecs`). Every Python exception the
core can raise is a case of `Errors.Error`, returned through `Result` or
`Outcome`.

The model keeps several behaviours of the source as written, and proves
what they lead to:

- The header's sector count is `calculate_sections()`, the ceiling of the
  payload length L over 4096. But the block written is L + 5 bytes plus
  padding. A reader that trusts the count therefore gets the payload back
  only when `1 <= L % 4096 <= 4091` (`RegionRoundTrip.RoundTrip`).
  Otherwise the payload is cut short. An empty payload leaves no prefix
  to unpack at all (`TruncatedChunkHeader`).
- The padding `4096 - ((L + 5) % 4096)` adds a whole spurious sector when
  `(L + 5) % 4096 == 0` (`Regions.Padding`).
- `decompress_chunk` on tag 3 (uncompressed) returns the unbound local
  `data`, so it always fails.
- `recompress_chunk_zopfli` to target 3 builds its compressor from the
  unbound `compression_format`, so it always fails.
- `--zopfli-disable-block-splitting` is declared with `store_false`. So
  `args.zopfli_disable_block_splitting` is true unless the flag is given,
  and `recompress_chunk` passes that value to the compressor as
  `block_splitting`. The model keeps it as the `zopfliBlockSplitting`
  option and passes it on unchanged.

## Model

| member | source | states |
|---|---|---|
| Bytes.Zeros | region.py:63 | `bytearray(n)` is n bytes, all zero (the initial 8192-byte header and the padding) |
| Bytes.UnpackU32 | region.py:50 | `struct.unpack(">I", ...)` of 4 bytes is below 2^32 |
| Bytes.PackU32 | region.py:85-88 | `struct.pack(">I", n)` gives 4 bytes that unpack to n |
| Bytes.PackUnpackU32 | region.py:50 | packing inverts big-endian unpacking of any 4 bytes |
| Bytes.LowThreeBytes | region.py:40-42 | the three low packed bytes of an offset below 2^24 spell it back, as the reader computes it |
| Bytes.Patch | region.py:99-100 | same-length slice assignment changes exactly the bytes in the slice |
| Bytes.ReadAt | region.py:47-48 | a read of n bytes at an offset yields at most n bytes, fewer at the end of the file, each the file's byte at that position |
| Chunks.InitCheck | chunk.py:11-19 | a tag is accepted exactly when it is 1, 2, 3 or 4; a tag outside the valid schemes is a ValueError; 127 is a RuntimeError |
| Chunks.Chunk.constructor | chunk.py:15-25 | an accepted tag gives a valid chunk holding exactly the given fields |
| Chunks.Sections | chunk.py:28-30 | the result is the ceiling of the payload length over 4096 |
| Chunks.SectionsSmall | chunk.py:28-30 | 0 sectors exactly for an empty payload, 1 exactly for lengths 1 to 4096 |
| Chunks.DecompressChunk | chunk.py:33-51 | only tags 1 and 2 can decode, exactly when the library decodes, and the result is the library's output (gzip for 1, zlib for 2); a library failure is that tag's decode error; tag 3 fails on the unbound `data`; 4 is not implemented; 127 and unknown tags fail |
| Chunks.Recompress | chunk.py:54-71 | succeeds exactly when decoding and the target's encoder succeed; the new chunk differs only in payload and tag, and the tag is the target; the new payload is the gzip (target 1) or zlib (target 2) encoding of the decoded bytes at the given level, and target 3 keeps the decoded bytes; an encoder failure is that target's error; failures for targets 4, 127 and unknown tags |
| Chunks.RecompressZopfli | chunk.py:74-99 | succeeds only for targets 1 and 2, when decoding and Zopfli succeed, and the new payload is Zopfli's output in the gzip (1) or zlib (2) format for the decoded bytes and the given options; a Zopfli failure is that target's error; target 3 fails on the unbound `compression_format`; 4 is not implemented; other targets are ValueErrors; only payload and tag change |
| Chunks.RecompressKeepsConstructible | chunk.py:70-71 | a successful recompression leaves a tag the constructor accepts |
| Chunks.Chunk.RecompressChunk | chunk.py:54-71 | changes only `data` and `compression`, exactly as Recompress says, and leaves the chunk as it was on any failure |
| Chunks.Chunk.RecompressChunkZopfli | chunk.py:74-99 | changes only `data` and `compression`, exactly as RecompressZopfli says, and leaves the chunk as it was on any failure |
| Regions.CreateEmptyRegion | region.py:14-22 | 1024 slots, all empty |
| Regions.Region.constructor | region.py:11-12 | a new region is valid and its grid is all empty slots |
| Regions.ChunkLocationOffset | region.py:113-119 | ValueError 'X' or 'Z' off the 32×32 grid, X checked first; otherwise a multiple of 4 at most 4092 that is 4 times the slot index `z*32+x` |
| Regions.SlotOffset | region.py:40-42 | a slot's 3-byte big-endian offset is below 2^24, and it is 0 exactly when its three bytes are 0 |
| Regions.SlotSectorCount | region.py:44 | the sector count is one byte, below 256 |
| Regions.SlotTimestamp | region.py:57 | the four timestamp bytes of slot i are bytes `4096 + 4i` to `4096 + 4i + 3` of the file |
| Regions.ParseSlot | region.py:35-59 | a slot is None exactly when its offset is 0; a parsed chunk has coordinates `(i%32, i//32)`, the timestamp entry and an accepted tag; failures are a truncated prefix or a rejected tag (ParseSlotPayload says which error each tag gives) |
| Regions.ParseSlotPayload | region.py:46-59 | reads `sector_count*4096` bytes at `offset*4096`; fewer than 5 bytes fail; a tag the constructor rejects gives the constructor's error (ValueError naming the tag, RuntimeError for 127); the tag is byte 4; the payload is `raw[5:length+5]`, shorter when the read is short |
| Regions.SlotResults | region.py:35-59 | the outcome of every slot, in slot order |
| Regions.Collect | region.py:35-59 | the loop yields the parsed slots when every slot parses, and otherwise the error of some slot |
| Regions.CollectAllOk | region.py:35-59 | the loop completes when every slot parses |
| Regions.CollectFirstError | region.py:35-59 | the loop's error is the error of the first failing slot |
| Regions.ParseImage | region.py:24-59 | HeadersError with the length read exactly when the image is shorter than 8192 bytes; on success every slot is what ParseSlot gives |
| Regions.Region.ReadFromFile | region.py:24-59 | fails exactly when ParseImage fails, with its error; on success every non-empty parsed slot holds a new chunk with the parsed value, and every other slot keeps its chunk |
| Regions.Region.PlaceChunk | region.py:55-59 | slot x gets a new chunk holding the value; no other slot changes |
| Regions.Padding | region.py:92 | the padding is 1 to 4096 bytes, ends the block on a sector boundary, and is a whole sector exactly when the prefixed payload already ends on one |
| Regions.BlockLength | region.py:90-92 | the block is longer than the 5-byte prefix and the payload by 1 to 4096 bytes of padding (Block states that it is a whole number of sectors) |
| Regions.Block | region.py:85-92 | the block is a whole number of sectors: the payload length, the tag, the payload, then zeros |
| Regions.LocationEntry | region.py:85-86 | 4 bytes: the three bytes read big-endian give the offset, and the fourth is the sector count |
| Regions.Compile | region.py:62-102 | compile_region_file starts from the 8192-byte header, so a result is never shorter than it (CompileLayout states the full layout) |
| Regions.CompileFrom | region.py:65-102 | the loop never shrinks the bytearray |
| Regions.CompileStep | region.py:69-100 | an empty slot is skipped; for a chunk, the offset overflow is checked before the size overflow; otherwise the block is appended and the entries are patched at `4*i` and `4*i+4096` |
| Regions.Region.Slots | region.py:10-12 | the region's chunks as values, all with accepted tags |
| Regions.Region.CompileRegionFile | region.py:62-102 | the imperative loop returns exactly Compile of the region's grid |
| RegionLayout.SectorOffset | region.py:76 | the sector offset `len(result) // 4096` given to a slot is at least 2, past the header |
| RegionLayout.Fits | region.py:78-81 | a chunk that passes the offset and size checks has at most 255 sectors of payload |
| RegionLayout.OverflowAt | region.py:78-81 | the offset overflow, carrying the offset, is raised exactly when the offset reaches 2^24; otherwise the size overflow carrying the sector count |
| RegionLayout.FitsBlock | region.py:80-81 | a chunk that passes the size check has a length the 4-byte field can hold |
| RegionLayout.Body | region.py:90-97 | the blocks written so far fill exactly their sectors |
| RegionLayout.HeaderEntry | region.py:99-100 | a slot's header bytes are zero until it is written, then its location entry and timestamp |
| RegionLayout.Placed | region.py:97-100 | placing a chunk grows the output by exactly its block |
| RegionLayout.PatchesKeepBody | region.py:99-100 | patching header entries leaves every byte after the header alone |
| RegionLayout.PlacedHeader | region.py:99-100 | placing a chunk writes its two entries and keeps the rest of the header |
| RegionLayout.PlacedBody | region.py:97 | placing a chunk appends its block after the earlier blocks |
| RegionLayout.LaidChunk | region.py:90-100 | placing a chunk extends the layout invariant by one slot |
| RegionLayout.LaidEmptySlot | region.py:71 | an empty slot leaves the output and its 8 header bytes untouched |
| RegionLayout.CompileFromChunk | region.py:74-100 | a chunk is placed when it fits; otherwise its OverflowError is raised, offset before size |
| RegionLayout.CompileFromLaid | region.py:65-102 | from any correctly laid-out prefix, the loop completes exactly when every later chunk fits, lays out all 1024 slots, and otherwise raises the first misfit's OverflowError |
| RegionLayout.CompileLayout | region.py:62-102 | compile succeeds exactly when every chunk fits; then the output is the laid-out header and blocks; otherwise the error is the first misfit's |
| RegionLayout.FirstMisfitExists | region.py:78-81 | when some chunk does not fit, there is a first one |
| RegionRoundTrip.BlockInBody | region.py:97 | each chunk's block lies right after the blocks of the earlier slots |
| RegionRoundTrip.OffsetsIncrease | region.py:76-97 | written sector offsets start at 2 or later and strictly increase in slot order, each block ending before the next offset |
| RegionRoundTrip.FirstOffset | region.py:63-76 | the first chunk in slot order is written at sector 2 |
| RegionRoundTrip.EntryBytes | region.py:99-100 | in the output, an empty slot's 8 header bytes are zero; a chunk's are its location entry and timestamp |
| RegionRoundTrip.DecodeEntries | region.py:40-57 | reading a written entry back gives the offset, the sector count and the timestamp |
| RegionRoundTrip.CompiledEntries | region.py:85-100 | the reader sees offset 0 for an empty slot; for a chunk, the offset of its block, its `calculate_sections()` and its timestamp |
| RegionRoundTrip.CompiledBlock | region.py:76-97 | each block lies in the output at its sector offset |
| RegionRoundTrip.SectionsWithinBlock | region.py:74-92 | the announced sectors never reach past the block |
| RegionRoundTrip.SectorsHoldPrefixedPayload | region.py:74-92 | the announced sectors hold the 5-byte prefix and the payload exactly when `1 <= L % 4096 <= 4091` |
| RegionRoundTrip.CompiledRaw | region.py:47-53 | the reader reads the first `calculate_sections()*4096` bytes of the chunk's block |
| RegionRoundTrip.ParseBlock | region.py:46-59 | parsing such bytes gives TruncatedChunkHeader for an empty payload; otherwise the chunk at the slot's coordinates with its payload cut to the announced sectors |
| RegionRoundTrip.ReadBack | region.py:46-59 | what the reader makes of a written slot: None exactly for an empty slot; an error exactly for an empty payload; otherwise the chunk at the slot's coordinates with its timestamp and tag and a non-empty prefix of its payload |
| RegionRoundTrip.ReadBackExact | region.py:53-59 | a slot reads back unchanged exactly when its chunk has the slot's coordinates and `1 <= L % 4096 <= 4091` |
| RegionRoundTrip.ParseCompiledSlot | region.py:24-102 | every slot of a compiled region parses to ReadBack of the slot written |
| RegionRoundTrip.CompiledReadBack | region.py:24-102 | every slot of a successful compile's output parses to ReadBack of the grid's slot |
| RegionRoundTrip.RoundTrip | region.py:24-102 | parse after compile gives the grid back exactly when every chunk has its slot's coordinates and `1 <= L % 4096 <= 4091` |
| Anvilord.InitialStats | anvilord.py:221-226 | a fresh Stats counts no chunks and no saving, and is consistent |
| Anvilord.SchemeTag | anvilord.py:230 | each scheme name maps to a tag the constructor accepts, and never to LZ4 |
| Anvilord.SchemeOf | anvilord.py:230 | exactly the tags 1, 2 and 3 name a scheme |
| Anvilord.SchemeMappingRoundTrip | anvilord.py:230 | the mapping is one-to-one: name to tag to name, and tag to name to tag |
| Anvilord.QuickSkip | anvilord.py:62-63 | quick compression skips a chunk exactly when it is enabled and the payload is 1 to 4096 bytes long |
| Anvilord.Reencode | anvilord.py:70-77 | it succeeds exactly when the chunk decodes and the selected encoder succeeds (never for Zopfli with "uncompressed"); a re-encoded chunk keeps its coordinates and timestamp and takes the mapped tag; a decode failure is passed on; with the zopfli flag the payload is Zopfli's output in the scheme's format with the three Zopfli options, and Zopfli with "uncompressed" always fails; without it the payload is the scheme's gzip or zlib output at the compression level, or the decoded bytes for "uncompressed" |
| Anvilord.SlotRule | anvilord.py:53-79 | an exception can only come from re-encoding a chunk, and is that encoder's error; otherwise a chunk stays a chunk, an empty slot stays empty, and the saving is untouched (SlotRuleSpec states the rest) |
| Anvilord.SlotRuleSpec | anvilord.py:53-79 | an empty slot changes nothing; a chunk adds 1 to the total and exactly 1 to skipped or recompressed; quick compression keeps a one-sector chunk; otherwise the zopfli flag selects the encoder, whose outcome is taken, and a recompressed chunk keeps its coordinates and timestamp and takes the mapped tag |
| Anvilord.SlotRuleKeepsConsistent | anvilord.py:60-79 | handling a slot keeps total = skipped + recompressed |
| Anvilord.ReencodeErrors | anvilord.py:70-77 | with a mapped scheme the only failures are decoding, the library, or Zopfli with "uncompressed" |
| Anvilord.ZopfliUncompressedFails | anvilord.py:70-74 | Zopfli with the "uncompressed" scheme fails on every chunk it does not skip and can decode |
| Anvilord.UncompressedChunkFails | anvilord.py:62-77 | a stored uncompressed chunk that is not skipped always fails to recompress |
| Anvilord.RecompressSlot | anvilord.py:53-79 | changes only slot x's chunk, exactly as the per-slot rule says; on an exception the chunk is as it was |
| Anvilord.SlotSections | anvilord.py:203-210 | the per-slot sector count used by the pass |
| Anvilord.SlotSectionsBounds | anvilord.py:203-210 | 0 exactly for an empty slot or an empty payload; otherwise the fewest sectors holding the payload |
| Anvilord.CalculateChunkSections | anvilord.py:203-210 | the region's slot x, 0 when empty, else the chunk's `calculate_sections()` |
| Anvilord.SquashFrom | anvilord.py:103-106 | the loop never changes the sector saving |
| Anvilord.SquashFromStep | anvilord.py:103-106 | one turn of the loop: an exception ends it, otherwise it goes on from the next slot |
| Anvilord.SquashFromAccounts | anvilord.py:103-106 | the loop keeps earlier slots, adds exactly the sectors before and after handling to the two totals, counts every chunk once, and keeps the counters consistent |
| Anvilord.QuickSkipKeepsGrid | anvilord.py:62-65 | with quick compression and only one-sector chunks, the loop changes no slot, skips every chunk, and grows both totals alike |
| Anvilord.Saved | anvilord.py:108-111 | only the saving changes; it grows by exactly `source - compressed` when the region shrank, and not at all otherwise |
| Anvilord.Squash | anvilord.py:100-111 | the saving never decreases |
| Anvilord.SquashAccounts | anvilord.py:100-111 | the saving grows by `source - compressed` exactly when the region's sectors shrank; the total grows by the number of chunks; consistency is kept |
| Anvilord.SquashSingleSectorRegion | anvilord.py:100-111 | a region of one-sector chunks squashed with quick compression is unchanged and saves nothing |
| Anvilord.SquashSlot | anvilord.py:104-106 | one imperative turn of the loop continues the pass exactly as SquashFrom does |
| Anvilord.SquashPass | anvilord.py:100-106 | the imperative loop yields the totals, counters and grid of SquashFrom |
| Anvilord.SquashRegionFile | anvilord.py:100-111 | the accounting of squash_region_file leaves the grid and returns the counters that Squash gives, or its exception |
| Anvilord.DisplayTime | anvilord.py:213-218 | `3600h + 60m + s == t` with `m < 60` and `s < 60` |
| Anvilord.DisplayTimeUnique | anvilord.py:213-218 | any split with minutes and seconds below 60 is the one DisplayTime gives |

## Left out

- Regions.Region.CompileRegionFile: some checks of compile_region_file are not written in the method. The ValueError of `calculate_chunk_location_offset`, the pointer check (`pointer_offset > 256**4`) and the `len(temp) % 4096` AssertionError cannot fire inside the loop. The contract of `ChunkLocationOffset` rules out the first two, and `CompileFrom` still performs both. The contract of `Block` (its length is a multiple of 4096) rules out the AssertionError, and neither `CompileFrom` nor the method has that branch.
- Regions.Region.ReadFromFile: after a failure, the slots before the failing one have new chunks. The method's contract says nothing about their values.
- Anvilord.SquashRegionFile: after an exception, the slots already recompressed keep their new chunks and the counters keep their partial increments. The contract does not state those partial updates; the exception ends the run in the source.
- Anvilord.RecompressSlot: the `total_chunks` increment made before an exception is not returned, because the exception ends the run in the source.
- Chunks.Chunk.RecompressChunkZopfli: the default values of `iterations`, `block_splitting` and `block_splitting_max` are not modelled; the only caller passes all three.
- Stats is an object updated in place in the source. Here it is a value passed in and returned.
- The grid is one sequence of 1024 slots, slot `z*32+x`. The source uses a dictionary of dictionaries `chunks[z][x]`.
- The file is an in-memory byte sequence. `open`, `seek` and `read` are not modelled; a read past the end yields a shorter slice (`ReadAt`).
- Timestamps are exactly 4 bytes. A short header slice cannot occur once the header check has passed.
- The gzip, zlib and Zopfli algorithms are not modelled. They are arbitrary functions that may fail.
- Filesystem traversal and classification (`search_for_region_folders`, `get_all_files_exclude_region`, `region_files_integrity`) are filesystem I/O.
- `write_everything_but_region`, the archive writing in `squash_region_file` (mtime lookup, `writestr`), `print` output and `time.monotonic` timing are I/O.
- The `argparse` setup and the `__main__` driver are left out. Options are a plain value; the default level 9 and the 1–9 range of levels are not enforced, since the encoders are abstract.
- Anvilord.DisplayTime works on whole non-negative seconds. The source takes a float, and the zero-padded string formatting is left out.
