/** The recompression policy of the Anvilord tool (anvilord.py): which
    chunks of the region being squashed are recompressed and how, the
    counters it keeps, the sector accounting of a whole region pass, and
    the formatting of elapsed time. The module-level `args`, `stats` and
    `current_region` of the source are explicit parameters here, and the
    counters are threaded through as values. */
module Anvilord {
  import opened Wrappers
  import opened Bytes
  import opened Errors
  import opened Codecs
  import opened Chunks
  import opened Regions

  /** The names `--compression-scheme` accepts. */
  datatype SchemeName = Gzip | Zlib | Uncompressed

  /** compression_scheme_mappings: gzip is tag 1, zlib 2, uncompressed 3. */
  function SchemeTag(name: SchemeName): (t: int)
    ensures t in ConstructibleSchemes && t != 4
  {
    match name
    case Gzip => 1
    case Zlib => 2
    case Uncompressed => 3
  }

  /** The reverse lookup of the mapping: the name a tag stands for. */
  function SchemeOf(t: int): (name: Option<SchemeName>)
    ensures name.Some? <==> t in {1, 2, 3}
  {
    if t == 1 then Some(Gzip)
    else if t == 2 then Some(Zlib)
    else if t == 3 then Some(Uncompressed)
    else None
  }

  /** The mapping is one-to-one: each name gets its own tag, and a tag
      the mapping yields names the scheme it came from. */
  lemma SchemeMappingRoundTrip(name: SchemeName, t: int)
    ensures SchemeOf(SchemeTag(name)) == Some(name)
    ensures SchemeOf(t).Some? ==> SchemeTag(SchemeOf(t).value) == t
  {
  }

  /** The command-line options the policy reads. `zopfliBlockSplitting`
      is the value of `args.zopfli_disable_block_splitting`: that option
      is declared with `store_false`, so the value is true unless the
      flag is given, and it is passed to the compressor as its
      `block_splitting` argument. */
  datatype Options = Options(
    disableQuickCompression: bool,
    zopfliChunk: bool,
    compressionScheme: SchemeName,
    compressionLevel: int,
    zopfliIterations: int,
    zopfliBlockSplitting: bool,
    zopfliBlockSplittingMax: int)

  /** The counters of the Stats object, as a value. */
  datatype Stats = Stats(totalChunks: nat, skippedChunks: nat, recompressedChunks: nat, sectionsSaved: nat)

  /** Stats.__init__: every counter starts at zero. */
  function InitialStats(): (s: Stats)
    ensures Consistent(s) && s.totalChunks == 0 && s.sectionsSaved == 0
  {
    Stats(0, 0, 0, 0)
  }

  /** Every chunk counted was either skipped or recompressed. */
  ghost predicate Consistent(s: Stats) {
    s.totalChunks == s.skippedChunks + s.recompressedChunks
  }

  /** The counter change for one non-empty slot that went through without
      an exception: one more chunk in total, and exactly one more of
      skipped and recompressed; the sector saving is untouched. */
  ghost predicate Counted(before: Stats, after: Stats) {
    && after.totalChunks == before.totalChunks + 1
    && after.skippedChunks + after.recompressedChunks == before.skippedChunks + before.recompressedChunks + 1
    && after.skippedChunks >= before.skippedChunks
    && after.recompressedChunks >= before.recompressedChunks
    && after.sectionsSaved == before.sectionsSaved
  }

  /** Quick compression leaves a chunk alone when it fills one sector. */
  function QuickSkip(opts: Options, c: ChunkValue): (skip: bool)
    ensures skip <==> !opts.disableQuickCompression && 1 <= |c.data| <= SectorSize
  {
    SectionsSmall(c.data);
    !opts.disableQuickCompression && Sections(c.data) == 1
  }

  /** The encoder the options select for a chunk that is not skipped. */
  function Reencode(codecs: Codecs, c: ChunkValue, opts: Options): (r: Result<ChunkValue, Error>)
    ensures r.Ok? ==> r.value == c.(data := r.value.data, compression := SchemeTag(opts.compressionScheme))
    ensures DecompressChunk(codecs, c.compression, c.data).Err? ==> r == Err(DecompressChunk(codecs, c.compression, c.data).error)
    ensures opts.zopfliChunk && opts.compressionScheme == Uncompressed ==> r.Err?
    ensures r.Ok? <==>
              && DecompressChunk(codecs, c.compression, c.data).Ok?
              && var decoded := DecompressChunk(codecs, c.compression, c.data).value;
                 if opts.zopfliChunk then
                   && opts.compressionScheme != Uncompressed
                   && codecs.zopfliCompress(if opts.compressionScheme == Gzip then ZopfliGzip else ZopfliZlib, decoded,
                                            ZopfliOptions(opts.zopfliIterations, opts.zopfliBlockSplitting,
                                                          opts.zopfliBlockSplittingMax)).Some?
                 else
                   match opts.compressionScheme
                   case Gzip => codecs.gzipCompress(decoded, opts.compressionLevel).Some?
                   case Zlib => codecs.zlibCompress(decoded, opts.compressionLevel).Some?
                   case Uncompressed => true
    ensures opts.zopfliChunk && r.Ok? ==>
              codecs.zopfliCompress(if opts.compressionScheme == Gzip then ZopfliGzip else ZopfliZlib,
                                    DecompressChunk(codecs, c.compression, c.data).value,
                                    ZopfliOptions(opts.zopfliIterations, opts.zopfliBlockSplitting, opts.zopfliBlockSplittingMax))
              == Some(r.value.data)
    ensures !opts.zopfliChunk && r.Ok? ==>
              var decoded := DecompressChunk(codecs, c.compression, c.data).value;
              match opts.compressionScheme
              case Gzip => codecs.gzipCompress(decoded, opts.compressionLevel) == Some(r.value.data)
              case Zlib => codecs.zlibCompress(decoded, opts.compressionLevel) == Some(r.value.data)
              case Uncompressed => r.value.data == decoded
  {
    if opts.zopfliChunk then
      RecompressZopfli(codecs, c, SchemeTag(opts.compressionScheme),
                       ZopfliOptions(opts.zopfliIterations, opts.zopfliBlockSplitting, opts.zopfliBlockSplittingMax))
    else
      Recompress(codecs, c, SchemeTag(opts.compressionScheme), opts.compressionLevel)
  }

  /** A slot and the counters after recompress_chunk has handled it. */
  datatype SlotStep = SlotStep(slot: Option<ChunkValue>, stats: Stats)

  /** recompress_chunk on one slot, as a value: an empty slot is left
      alone; a chunk is counted, then either skipped by quick compression
      or re-encoded with the encoder the options select. */
  function SlotRule(codecs: Codecs, slot: Option<ChunkValue>, opts: Options, stats: Stats): (r: Result<SlotStep, Error>)
    ensures r.Err? ==> slot.Some? && Reencode(codecs, slot.value, opts) == Err(r.error)
    ensures r.Ok? ==> r.value.slot.Some? == slot.Some? && r.value.stats.sectionsSaved == stats.sectionsSaved
  {
    match slot
    case None => Ok(SlotStep(None, stats))
    case Some(c) =>
      var counted := stats.(totalChunks := stats.totalChunks + 1);
      if QuickSkip(opts, c) then
        Ok(SlotStep(slot, counted.(skippedChunks := counted.skippedChunks + 1)))
      else
        match Reencode(codecs, c, opts)
        case Err(e) => Err(e)
        case Ok(c') => Ok(SlotStep(Some(c'), counted.(recompressedChunks := counted.recompressedChunks + 1)))
  }

  /** What handling a slot does: an empty slot changes nothing; a chunk
      is counted once and is either skipped (quick compression, one
      sector: the chunk is kept) or recompressed (the chunk keeps its
      coordinates and timestamp and takes the configured scheme's tag),
      and the zopfli flag selects the encoder whose outcome it takes. */
  lemma SlotRuleSpec(codecs: Codecs, slot: Option<ChunkValue>, opts: Options, stats: Stats)
    ensures var r := SlotRule(codecs, slot, opts, stats);
            && (slot.None? ==> r == Ok(SlotStep(None, stats)))
            && (slot.Some? && r.Ok? ==> Counted(stats, r.value.stats) && r.value.slot.Some?)
            && (slot.Some? && QuickSkip(opts, slot.value) ==>
                  r.Ok? && r.value.slot == slot && r.value.stats.skippedChunks == stats.skippedChunks + 1)
            && (slot.Some? && !QuickSkip(opts, slot.value) && r.Ok? ==>
                  && r.value.stats.recompressedChunks == stats.recompressedChunks + 1
                  && r.value.slot.value == slot.value.(data := r.value.slot.value.data,
                                                       compression := SchemeTag(opts.compressionScheme)))
            && (slot.Some? && !QuickSkip(opts, slot.value) ==>
                  && r.Ok? == Reencode(codecs, slot.value, opts).Ok?
                  && (r.Ok? ==> r.value.slot == Some(Reencode(codecs, slot.value, opts).value))
                  && (r.Err? ==> r.error == Reencode(codecs, slot.value, opts).error))
  {
  }

  /** Handling a slot keeps the counters consistent. */
  lemma SlotRuleKeepsConsistent(codecs: Codecs, slot: Option<ChunkValue>, opts: Options, stats: Stats)
    requires Consistent(stats)
    ensures SlotRule(codecs, slot, opts, stats).Ok? ==> Consistent(SlotRule(codecs, slot, opts, stats).value.stats)
  {
  }

  /** A mapped scheme is always a target the encoders know, so the only
      failures left are those of decoding, of the libraries, and of the
      Zopfli path's unbound `compression_format` for "uncompressed". */
  lemma ReencodeErrors(codecs: Codecs, c: ChunkValue, opts: Options)
    requires c.compression in ConstructibleSchemes
    ensures Reencode(codecs, c, opts).Err? ==>
              || (DecompressChunk(codecs, c.compression, c.data).Err?
                  && Reencode(codecs, c, opts).error == DecompressChunk(codecs, c.compression, c.data).error)
              || Reencode(codecs, c, opts).error == CompressFailed(SchemeTag(opts.compressionScheme))
              || (opts.zopfliChunk && opts.compressionScheme == Uncompressed
                  && Reencode(codecs, c, opts).error == UnboundLocal("compression_format"))
  {
  }

  /** With Zopfli and the "uncompressed" scheme, every chunk that is not
      skipped and decodes raises UnboundLocalError. */
  lemma ZopfliUncompressedFails(codecs: Codecs, c: ChunkValue, opts: Options, stats: Stats)
    requires opts.zopfliChunk && opts.compressionScheme == Uncompressed && !QuickSkip(opts, c)
    requires DecompressChunk(codecs, c.compression, c.data).Ok?
    ensures SlotRule(codecs, Some(c), opts, stats) == Err(UnboundLocal("compression_format"))
  {
  }

  /** A stored uncompressed chunk (tag 3) that is not skipped cannot be
      recompressed: decompress_chunk leaves its result unbound. */
  lemma UncompressedChunkFails(codecs: Codecs, c: ChunkValue, opts: Options, stats: Stats)
    requires c.compression == 3 && !QuickSkip(opts, c)
    ensures SlotRule(codecs, Some(c), opts, stats) == Err(UnboundLocal("data"))
  {
  }

  /** calculate_sections of a slot's chunk, 0 for an empty slot. */
  function SlotSections(slot: Option<ChunkValue>): nat {
    if slot.None? then 0 else Sections(slot.value.data)
  }

  /** A slot fills no sector exactly when it is empty or its chunk's
      payload is, and otherwise the fewest sectors its payload fits in. */
  lemma SlotSectionsBounds(slot: Option<ChunkValue>)
    ensures SlotSections(slot) == 0 <==> slot.None? || |slot.value.data| == 0
    ensures slot.Some? ==> |slot.value.data| <= SlotSections(slot) * SectorSize < |slot.value.data| + SectorSize
  {
  }

  /** calculate_chunk_sections: the sectors the chunk in slot x fills. */
  function CalculateChunkSections(region: Region, x: nat): (n: nat)
    requires region.Valid() && x < SlotCount
    reads region, region.chunks
    ensures n == SlotSections(region.Slots()[x])
  {
    var current := region.chunks[x];
    if current == null then 0 else Sections(current.data)
  }

  /** recompress_chunk on slot x of a region (slot x is `chunks[x // 32]
      [x % 32]` in the source). Only the chunk in that slot may change,
      and it changes exactly as SlotRule says; on an exception it is left
      as it was. */
  method RecompressSlot(region: Region, x: nat, opts: Options, codecs: Codecs, stats: Stats) returns (r: Result<Stats, Error>)
    requires region.Valid() && x < SlotCount
    modifies region.chunks[x]
    ensures region.Valid()
    ensures match SlotRule(codecs, old(region.Slots())[x], opts, stats)
            case Ok(step) => r == Ok(step.stats) && region.Slots() == old(region.Slots())[x := step.slot]
            case Err(e) => r == Err(e) && region.Slots() == old(region.Slots())
  {
    var current := region.chunks[x];
    if current == null {
      return Ok(stats);
    }
    var counted := stats.(totalChunks := stats.totalChunks + 1);
    if !opts.disableQuickCompression && Sections(current.data) == 1 {
      return Ok(counted.(skippedChunks := counted.skippedChunks + 1));
    }
    var outcome: Outcome<Error>;
    if opts.zopfliChunk {
      outcome := current.RecompressChunkZopfli(codecs, SchemeTag(opts.compressionScheme), opts.zopfliIterations,
                                               opts.zopfliBlockSplitting, opts.zopfliBlockSplittingMax);
    } else {
      outcome := current.RecompressChunk(codecs, SchemeTag(opts.compressionScheme), opts.compressionLevel);
    }
    if outcome.Fail? {
      return Err(outcome.error);
    }
    r := Ok(counted.(recompressedChunks := counted.recompressedChunks + 1));
  }

  /** The sectors a run of slots fills, summed slot by slot. */
  function SectionsOf(slots: seq<Option<ChunkValue>>): nat {
    if |slots| == 0 then 0 else SlotSections(slots[0]) + SectionsOf(slots[1..])
  }

  /** The number of non-empty slots in a run of slots. */
  function ChunkCount(slots: seq<Option<ChunkValue>>): nat {
    if |slots| == 0 then 0 else (if slots[0].Some? then 1 else 0) + ChunkCount(slots[1..])
  }

  /** The state of the pass over the slots of a region: the grid so far,
      the counters, and the two running sector totals. */
  datatype Sweep = Sweep(grid: Grid, stats: Stats, source: nat, compressed: nat)

  /** The loop of squash_region_file from slot i on: add the slot's sectors
      to the source total, handle the slot, add its sectors again to the
      compressed total. An exception ends the pass. */
  function SquashFrom(codecs: Codecs, grid: Grid, i: nat, opts: Options, stats: Stats, source: nat, compressed: nat)
    : (r: Result<Sweep, Error>)
    requires i <= SlotCount
    ensures r.Ok? ==> r.value.stats.sectionsSaved == stats.sectionsSaved
    decreases SlotCount - i
  {
    if i == SlotCount then Ok(Sweep(grid, stats, source, compressed))
    else
      match SlotRule(codecs, grid[i], opts, stats)
      case Err(e) => Err(e)
      case Ok(step) =>
        SquashFrom(codecs, grid[i := step.slot], i + 1, opts, step.stats,
                   source + SlotSections(grid[i]), compressed + SlotSections(step.slot))
  }

  /** One slot of the pass: an exception in it ends the pass, otherwise
      the pass goes on from the next slot with the slot replaced. */
  lemma SquashFromStep(codecs: Codecs, grid: Grid, i: nat, opts: Options, stats: Stats, source: nat, compressed: nat)
    requires i < SlotCount
    ensures var step := SlotRule(codecs, grid[i], opts, stats);
            SquashFrom(codecs, grid, i, opts, stats, source, compressed)
              == if step.Err? then Err(step.error)
                 else SquashFrom(codecs, grid[i := step.value.slot], i + 1, opts, step.value.stats,
                                 source + SlotSections(grid[i]), compressed + SlotSections(step.value.slot))
  {
  }

  /** The pass keeps the slots before i, adds exactly the sectors of the
      slots from i on before and after handling to the two totals, counts
      every non-empty slot from i on once, and keeps the counters
      consistent. */
  lemma {:induction false} SquashFromAccounts(codecs: Codecs, grid: Grid, i: nat, opts: Options, stats: Stats,
                                              source: nat, compressed: nat)
    requires i <= SlotCount
    ensures var r := SquashFrom(codecs, grid, i, opts, stats, source, compressed);
            r.Ok? ==>
              && r.value.grid[..i] == grid[..i]
              && r.value.source == source + SectionsOf(grid[i..])
              && r.value.compressed == compressed + SectionsOf(r.value.grid[i..])
              && r.value.stats.totalChunks == stats.totalChunks + ChunkCount(grid[i..])
              && (Consistent(stats) ==> Consistent(r.value.stats))
    decreases SlotCount - i
  {
    if i < SlotCount {
      var step := SlotRule(codecs, grid[i], opts, stats);
      SlotRuleSpec(codecs, grid[i], opts, stats);
      if step.Ok? {
        var next: Grid := grid[i := step.value.slot];
        SquashFromAccounts(codecs, next, i + 1, opts, step.value.stats,
                           source + SlotSections(grid[i]), compressed + SlotSections(step.value.slot));
        var r := SquashFrom(codecs, next, i + 1, opts, step.value.stats,
                            source + SlotSections(grid[i]), compressed + SlotSections(step.value.slot));
        if r.Ok? {
          assert next[i + 1..] == grid[i + 1..];
          assert grid[i..][1..] == grid[i + 1..];
          assert r.value.grid[..i + 1] == next[..i + 1];
          assert r.value.grid[i] == next[..i + 1][i] == step.value.slot;
          assert r.value.grid[..i] == next[..i + 1][..i];
          assert r.value.grid[i..][1..] == r.value.grid[i + 1..];
        }
      }
    }
  }

  /** With quick compression on and every chunk from slot i on filling one
      sector, the pass changes no slot, skips every chunk, and its two
      totals grow by the same amount. */
  lemma {:induction false} QuickSkipKeepsGrid(codecs: Codecs, grid: Grid, i: nat, opts: Options, stats: Stats,
                                              source: nat, compressed: nat)
    requires i <= SlotCount && !opts.disableQuickCompression
    requires forall j | i <= j < SlotCount && grid[j].Some? :: Sections(grid[j].value.data) == 1
    ensures var k := ChunkCount(grid[i..]);
            SquashFrom(codecs, grid, i, opts, stats, source, compressed)
              == Ok(Sweep(grid, stats.(totalChunks := stats.totalChunks + k, skippedChunks := stats.skippedChunks + k),
                          source + SectionsOf(grid[i..]), compressed + SectionsOf(grid[i..])))
    decreases SlotCount - i
  {
    if i < SlotCount {
      var step := SlotRule(codecs, grid[i], opts, stats);
      if grid[i].Some? {
        assert QuickSkip(opts, grid[i].value);
      }
      SlotRuleSpec(codecs, grid[i], opts, stats);
      assert step.Ok? && step.value.slot == grid[i];
      assert grid[i := grid[i]] == grid;
      QuickSkipKeepsGrid(codecs, grid, i + 1, opts, step.value.stats,
                         source + SlotSections(grid[i]), compressed + SlotSections(grid[i]));
      assert grid[i..][1..] == grid[i + 1..];
    }
  }

  /** The result of squash_region_file's accounting: the new grid and the
      counters. */
  datatype Squashed = Squashed(grid: Grid, stats: Stats)

  /** The saving recorded after the pass: the difference of the totals
      when the region shrank, nothing otherwise. */
  function Saved(stats: Stats, source: nat, compressed: nat): (saved: Stats)
    ensures saved.(sectionsSaved := stats.sectionsSaved) == stats
    ensures compressed < source ==> saved.sectionsSaved + compressed == stats.sectionsSaved + source
    ensures source <= compressed ==> saved == stats
  {
    if compressed < source then stats.(sectionsSaved := stats.sectionsSaved + (source - compressed)) else stats
  }

  /** The whole pass over the 1024 slots of a region. */
  function Squash(codecs: Codecs, grid: Grid, opts: Options, stats: Stats): (r: Result<Squashed, Error>)
    ensures r.Ok? ==> r.value.stats.sectionsSaved >= stats.sectionsSaved
  {
    match SquashFrom(codecs, grid, 0, opts, stats, 0, 0)
    case Err(e) => Err(e)
    case Ok(w) => Ok(Squashed(w.grid, Saved(w.stats, w.source, w.compressed)))
  }

  /** The saving a squash records is the number of sectors the region's
      chunks shrank by, when they shrank, and nothing otherwise; every
      chunk of the region is counted once and the counters stay
      consistent. */
  lemma SquashAccounts(codecs: Codecs, grid: Grid, opts: Options, stats: Stats)
    ensures var r := Squash(codecs, grid, opts, stats);
            r.Ok? ==>
              && r.value.stats.sectionsSaved
                   == stats.sectionsSaved + (if SectionsOf(r.value.grid) < SectionsOf(grid)
                                             then SectionsOf(grid) - SectionsOf(r.value.grid) else 0)
              && r.value.stats.totalChunks == stats.totalChunks + ChunkCount(grid)
              && (Consistent(stats) ==> Consistent(r.value.stats))
  {
    SquashFromAccounts(codecs, grid, 0, opts, stats, 0, 0);
    assert grid[0..] == grid;
    var w := SquashFrom(codecs, grid, 0, opts, stats, 0, 0);
    if w.Ok? {
      assert w.value.grid[0..] == w.value.grid;
    }
  }

  /** A region whose chunks all fill one sector is left as it is by a
      squash with quick compression, and records no saving. */
  lemma SquashSingleSectorRegion(codecs: Codecs, grid: Grid, opts: Options, stats: Stats)
    requires !opts.disableQuickCompression
    requires forall j | 0 <= j < SlotCount && grid[j].Some? :: Sections(grid[j].value.data) == 1
    ensures Squash(codecs, grid, opts, stats).Ok?
    ensures Squash(codecs, grid, opts, stats).value.grid == grid
    ensures Squash(codecs, grid, opts, stats).value.stats.sectionsSaved == stats.sectionsSaved
  {
    QuickSkipKeepsGrid(codecs, grid, 0, opts, stats, 0, 0);
  }

  /** One turn of squash_region_file's loop: add slot x's sectors to the
      source total, handle the slot, add its sectors to the compressed
      total. The pass from slot x on is the pass from slot x + 1 on with
      the new state, or ends here with the exception. */
  method SquashSlot(region: Region, x: nat, opts: Options, codecs: Codecs, stats: Stats, source: nat, compressed: nat)
    returns (r: Result<(Stats, nat, nat), Error>)
    requires region.Valid() && x < SlotCount
    modifies region.chunks[x]
    ensures region.Valid()
    ensures match r
            case Ok(next) => SquashFrom(codecs, region.Slots(), x + 1, opts, next.0, next.1, next.2)
                             == SquashFrom(codecs, old(region.Slots()), x, opts, stats, source, compressed)
            case Err(e) => SquashFrom(codecs, old(region.Slots()), x, opts, stats, source, compressed) == Err(e)
  {
    ghost var before := region.Slots();
    SquashFromStep(codecs, before, x, opts, stats, source, compressed);
    var sourceNext := source + CalculateChunkSections(region, x);
    var handled := RecompressSlot(region, x, opts, codecs, stats);
    if handled.Err? {
      return Err(handled.error);
    }
    var compressedNext := compressed + CalculateChunkSections(region, x);
    r := Ok((handled.value, sourceNext, compressedNext));
  }

  /** The loop of squash_region_file over the 1024 slots, with its two
      running totals. */
  method SquashPass(region: Region, opts: Options, codecs: Codecs, stats: Stats) returns (r: Result<(Stats, nat, nat), Error>)
    requires region.Valid()
    modifies region.chunks
    ensures region.Valid()
    ensures match r
            case Ok(totals) => SquashFrom(codecs, old(region.Slots()), 0, opts, stats, 0, 0)
                               == Ok(Sweep(region.Slots(), totals.0, totals.1, totals.2))
            case Err(e) => SquashFrom(codecs, old(region.Slots()), 0, opts, stats, 0, 0) == Err(e)
  {
    ghost var goal := SquashFrom(codecs, region.Slots(), 0, opts, stats, 0, 0);
    var source: nat := 0;
    var compressed: nat := 0;
    var current := stats;
    var x := 0;
    while x < SlotCount
      invariant 0 <= x <= SlotCount && region.Valid()
      invariant SquashFrom(codecs, region.Slots(), x, opts, current, source, compressed) == goal
    {
      var turn := SquashSlot(region, x, opts, codecs, current, source, compressed);
      if turn.Err? {
        return Err(turn.error);
      }
      current, source, compressed := turn.value.0, turn.value.1, turn.value.2;
      x := x + 1;
    }
    r := Ok((current, source, compressed));
  }

  /** The section accounting of squash_region_file on the current region:
      the pass over its slots, then the saving. Writing the compiled
      region to the archive is not part of this method. */
  method SquashRegionFile(region: Region, opts: Options, codecs: Codecs, stats: Stats) returns (r: Result<Stats, Error>)
    requires region.Valid()
    modifies region.chunks
    ensures region.Valid()
    ensures match Squash(codecs, old(region.Slots()), opts, stats)
            case Ok(s) => r == Ok(s.stats) && region.Slots() == s.grid
            case Err(e) => r == Err(e)
  {
    var pass := SquashPass(region, opts, codecs, stats);
    if pass.Err? {
      assert Squash(codecs, old(region.Slots()), opts, stats) == Err(pass.error);
      return Err(pass.error);
    }
    r := Ok(Saved(pass.value.0, pass.value.1, pass.value.2));
    assert Squash(codecs, old(region.Slots()), opts, stats)
           == Ok(Squashed(region.Slots(), Saved(pass.value.0, pass.value.1, pass.value.2)));
  }

  /** Hours, minutes and seconds of an elapsed time. */
  datatype Clock = Clock(hours: nat, minutes: nat, seconds: nat)

  /** display_time on a whole number of seconds. */
  function DisplayTime(t: nat): (c: Clock)
    ensures 3600 * c.hours + 60 * c.minutes + c.seconds == t
    ensures c.minutes < 60 && c.seconds < 60
  {
    ClockArithmetic(t);
    Clock(t / 3600, t % 3600 / 60, t % 60)
  }

  /** The three fields display_time computes add back up to t. */
  lemma ClockArithmetic(t: nat)
    ensures 3600 * (t / 3600) + 60 * (t % 3600 / 60) + t % 60 == t
  {
    var h, r := t / 3600, t % 3600;
    var m, s := r / 60, r % 60;
    assert t == 60 * (60 * h + m) + s;
    RemainderOfSixty(60 * h + m, s);
  }

  /** Seconds are what is left over after the whole minutes. */
  lemma RemainderOfSixty(q: nat, s: nat)
    requires s < 60
    ensures (60 * q + s) % 60 == s
  {
  }

  /** The split is the only one with minutes and seconds below 60. */
  lemma DisplayTimeUnique(t: nat, c: Clock)
    requires 3600 * c.hours + 60 * c.minutes + c.seconds == t
    requires c.minutes < 60 && c.seconds < 60
    ensures DisplayTime(t) == c
  {
    var d := DisplayTime(t);
    assert 60 * c.minutes + c.seconds < 3600;
    assert 60 * d.minutes + d.seconds < 3600;
    assert c.hours == d.hours;
    assert c.minutes == d.minutes;
  }
}
