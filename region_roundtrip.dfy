/** Reading back a compiled region: where each block and header entry
    lands in the bytes compile_region_file returns, what read_from_file
    makes of each slot, and the condition under which the round trip
    gives the grid back. */
module RegionRoundTrip {
  import opened Wrappers
  import opened Bytes
  import opened Errors
  import opened Chunks
  import opened Regions
  import opened RegionLayout

  /** Slot j's block lies in the blocks of the first n slots, right
      after the blocks of the slots before j. */
  lemma {:induction false} BlockInBody(grid: Grid, n: nat, j: nat, k: nat)
    requires WellFormed(grid) && j < n <= SlotCount && grid[j].Some?
    requires forall m | 0 <= m < n :: Fits(grid, m)
    requires |grid[j].value.data| < 0x1_0000_0000 && k < BlockLength(|grid[j].value.data|)
    ensures |Body(grid, j)| + BlockLength(|grid[j].value.data|) <= |Body(grid, n)|
    ensures Body(grid, n)[|Body(grid, j)| + k] == Block(grid[j].value)[k]
    decreases n
  {
    if n == j + 1 {
      assert Body(grid, n) == Body(grid, j) + Block(grid[j].value);
    } else {
      BlockInBody(grid, n - 1, j, k);
      var shorter := Body(grid, n - 1);
      match grid[n - 1]
      case None =>
        assert Body(grid, n) == shorter;
      case Some(c) =>
        FitsBlock(grid, n - 1);
        assert Body(grid, n) == shorter + Block(c);
    }
  }

  /** Each block is at least one sector, so offsets strictly increase in
      slot order, starting at sector 2. */
  lemma {:induction false} OffsetsIncrease(grid: Grid, j: nat, k: nat)
    requires j < k <= SlotCount && grid[j].Some?
    ensures 2 <= SectorOffset(grid, j)
    ensures SectorOffset(grid, j) + BlockSectors(grid[j]) <= SectorOffset(grid, k)
    ensures SectorOffset(grid, j) < SectorOffset(grid, k)
    decreases k - j
  {
    assert BlockSectors(grid[j]) >= 1;
    if j + 1 < k {
      OffsetsIncrease(grid, j, k - 1);
    }
  }

  /** The first chunk in slot order is written at sector 2, right after
      the header. */
  lemma {:induction false} FirstOffset(grid: Grid, j: nat)
    requires j <= SlotCount
    requires forall k | 0 <= k < j :: grid[k].None?
    ensures SectorOffset(grid, j) == 2
    decreases j
  {
    if j > 0 {
      FirstOffset(grid, j - 1);
    }
  }

  /** The eight header bytes of slot j in a compiled region: its
      location entry, then its timestamp entry; zeros for an empty slot. */
  lemma EntryBytes(grid: Grid, image: seq<byte>, j: nat)
    requires HeaderLaid(grid, SlotCount, image) && j < SlotCount
    ensures |image| >= HeaderSize
    ensures grid[j].None? ==> && image[4 * j .. 4 * j + 4] == [0, 0, 0, 0]
                              && image[SectorSize + 4 * j .. SectorSize + 4 * j + 4] == [0, 0, 0, 0]
    ensures grid[j].Some? ==>
              && SectorOffset(grid, j) < 0x100_0000 && Sections(grid[j].value.data) < 256
              && image[4 * j .. 4 * j + 4] == LocationEntry(SectorOffset(grid, j), Sections(grid[j].value.data))
              && image[SectorSize + 4 * j .. SectorSize + 4 * j + 4] == grid[j].value.timestamp
  {
    assert Fits(grid, j);
    LocationBytes(grid, image, j);
    StampBytes(grid, image, j);
  }

  /** Slot j's location entry in a compiled header. */
  lemma LocationBytes(grid: Grid, image: seq<byte>, j: nat)
    requires HeaderLaid(grid, SlotCount, image) && j < SlotCount
    ensures 4 * j + 4 <= |image|
    ensures image[4 * j .. 4 * j + 4] ==
              if grid[j].None? then [0, 0, 0, 0]
              else assert Fits(grid, j); LocationEntry(SectorOffset(grid, j), Sections(grid[j].value.data))
  {
    var k := 4 * j;
    var entry: seq<byte> :=
      if grid[j].None? then [0, 0, 0, 0]
      else assert Fits(grid, j); LocationEntry(SectorOffset(grid, j), Sections(grid[j].value.data));
    forall at | 0 <= at < 4
      ensures image[k .. k + 4][at] == entry[at]
    {
      HeaderEntry(grid, SlotCount, j, at);
      assert image[k + at] == HeaderByte(grid, SlotCount, k + at);
    }
    assert image[k .. k + 4] == entry;
  }

  /** Slot j's timestamp entry in a compiled header. */
  lemma StampBytes(grid: Grid, image: seq<byte>, j: nat)
    requires HeaderLaid(grid, SlotCount, image) && j < SlotCount
    ensures SectorSize + 4 * j + 4 <= |image|
    ensures image[SectorSize + 4 * j .. SectorSize + 4 * j + 4] ==
              if grid[j].None? then [0, 0, 0, 0] else grid[j].value.timestamp
  {
    var t := SectorSize + 4 * j;
    var stamp: seq<byte> := if grid[j].None? then [0, 0, 0, 0] else grid[j].value.timestamp;
    forall at | 0 <= at < 4
      ensures image[t .. t + 4][at] == stamp[at]
    {
      HeaderEntry(grid, SlotCount, j, at);
      assert image[t + at] == HeaderByte(grid, SlotCount, t + at);
    }
    assert image[t .. t + 4] == stamp;
  }

  /** Reading a slot's entries back: header bytes holding a location
      entry and a timestamp decode to the offset, the sector count and
      the timestamp. */
  lemma DecodeEntries(image: seq<byte>, j: nat, offset: nat, count: nat, stamp: Timestamp)
    requires |image| >= HeaderSize && j < SlotCount && offset < 0x100_0000 && count < 256
    requires image[4 * j .. 4 * j + 4] == LocationEntry(offset, count)
    requires image[SectorSize + 4 * j .. SectorSize + 4 * j + 4] == stamp
    ensures SlotOffset(image, j) == offset && SlotSectorCount(image, j) == count && SlotTimestamp(image, j) == stamp
  {
    var k, t := 4 * j, SectorSize + 4 * j;
    var entry := LocationEntry(offset, count);
    LowThreeBytes(offset);
    assert image[k] == entry[0] && image[k + 1] == entry[1] by {
      assert image[k .. k + 4][0] == image[k] && image[k .. k + 4][1] == image[k + 1];
    }
    assert image[k + 2] == entry[2] && image[k + 3] == entry[3] by {
      assert image[k .. k + 4][2] == image[k + 2] && image[k .. k + 4][3] == image[k + 3];
    }
  }

  /** The header entries of slot j in a compiled region: zero for an
      empty slot; otherwise the block's sector offset, the chunk's sector
      count and its timestamp. */
  lemma CompiledEntries(grid: Grid, image: seq<byte>, j: nat)
    requires WellFormed(grid) && Laid(grid, SlotCount, image) && j < SlotCount
    ensures |image| >= HeaderSize
    ensures grid[j].None? ==> SlotOffset(image, j) == 0 && SlotSectorCount(image, j) == 0
                              && SlotTimestamp(image, j) == [0, 0, 0, 0]
    ensures grid[j].Some? ==> && SlotOffset(image, j) == SectorOffset(grid, j)
                              && SlotSectorCount(image, j) == Sections(grid[j].value.data)
                              && SlotTimestamp(image, j) == grid[j].value.timestamp
  {
    EntryBytes(grid, image, j);
    if grid[j].Some? {
      DecodeEntries(image, j, SectorOffset(grid, j), Sections(grid[j].value.data), grid[j].value.timestamp);
    } else {
      assert LocationEntry(0, 0) == [0, 0, 0, 0];
      DecodeEntries(image, j, 0, 0, [0, 0, 0, 0]);
    }
  }

  /** Slot j's block lies at its sector offset in a compiled region. */
  lemma CompiledBlock(grid: Grid, image: seq<byte>, j: nat)
    requires WellFormed(grid) && Laid(grid, SlotCount, image) && j < SlotCount && grid[j].Some?
    ensures |grid[j].value.data| < 0x1_0000_0000
    ensures var start := SectorSize * SectorOffset(grid, j);
            && start + |Block(grid[j].value)| <= |image|
            && image[start .. start + |Block(grid[j].value)|] == Block(grid[j].value)
  {
    var c := grid[j].value;
    FitsBlock(grid, j);
    var before := Body(grid, j);
    var start := SectorSize * SectorOffset(grid, j);
    assert start == HeaderSize + |before|;
    var body := Body(grid, SlotCount);
    assert image[HeaderSize..] == body;
    BlockInBody(grid, SlotCount, j, 0);
    forall k | 0 <= k < |Block(c)|
      ensures image[start + k] == Block(c)[k]
    {
      BlockInBody(grid, SlotCount, j, k);
      assert image[HeaderSize..][|before| + k] == body[|before| + k];
    }
  }

  /** The header's sector count never reaches past the block. */
  lemma SectionsWithinBlock(data: seq<byte>)
    ensures Sections(data) * SectorSize <= BlockLength(|data|)
  {
  }

  /** The sectors the header announces hold the 5-byte prefix and the
      whole payload exactly when `1 <= length % 4096 <= 4091`. */
  lemma SectorsHoldPrefixedPayload(data: seq<byte>)
    ensures Sections(data) * SectorSize >= |data| + 5 <==> 1 <= |data| % SectorSize <= 4091
  {
    var n := Sections(data);
    var q, r := |data| / SectorSize, |data| % SectorSize;
    assert |data| == q * SectorSize + r;
    if r == 0 {
      assert n == q;
    } else {
      assert n == q + 1;
    }
  }

  /** The bytes read_from_file reads for a chunk of a compiled region:
      the first `calculate_sections() * 4096` bytes of its block. */
  lemma CompiledRaw(grid: Grid, image: seq<byte>, j: nat)
    requires WellFormed(grid) && Laid(grid, SlotCount, image) && j < SlotCount && grid[j].Some?
    ensures |grid[j].value.data| < 0x1_0000_0000
    ensures var c := grid[j].value;
            var count := Sections(c.data) * SectorSize;
            && count <= BlockLength(|c.data|)
            && ReadAt(image, SectorSize * SectorOffset(grid, j), count) == Block(c)[..count]
  {
    var c := grid[j].value;
    CompiledBlock(grid, image, j);
    SectionsWithinBlock(c.data);
    var block := Block(c);
    var start := SectorSize * SectorOffset(grid, j);
    var count := Sections(c.data) * SectorSize;
    var raw := ReadAt(image, start, count);
    assert |raw| == count by {
      OffsetsIncrease(grid, j, SlotCount);
    }
    forall k | 0 <= k < count
      ensures raw[k] == block[k]
    {
      assert image[start .. start + |block|][k] == block[k];
    }
  }

  /** Parsing a slot whose entries hold a chunk's offset, sector count
      and timestamp, and whose sectors hold the start of its block. */
  lemma ParseBlock(image: seq<byte>, j: nat, offset: nat, c: ChunkValue)
    requires |image| >= HeaderSize && j < SlotCount && offset > 0
    requires |c.data| < 0x1_0000_0000 && c.compression in ConstructibleSchemes
    requires SlotOffset(image, j) == offset && SlotSectorCount(image, j) == Sections(c.data)
    requires SlotTimestamp(image, j) == c.timestamp
    requires var count := Sections(c.data) * SectorSize;
             count <= BlockLength(|c.data|) && ReadAt(image, SectorSize * offset, count) == Block(c)[..count]
    ensures |c.data| == 0 ==> ParseSlot(image, j) == Err(TruncatedChunkHeader(0))
    ensures |c.data| > 0 ==>
              ParseSlot(image, j) == Ok(Some(c.(x := j % 32, z := j / 32,
                                                data := c.data[..Min(|c.data|, Sections(c.data) * SectorSize - 5)])))
  {
    var count := Sections(c.data) * SectorSize;
    var block := Block(c);
    var raw := ReadAt(image, offset * SectorSize, count);
    assert raw == block[..count];
    if |c.data| > 0 {
      assert count >= SectorSize;
      assert raw[0..4] == PackU32(|c.data|);
      assert raw[4] == c.compression;
      var m := Min(|c.data|, count - 5);
      assert raw[5 .. Min(|c.data| + 5, |raw|)] == c.data[..m] by {
        forall k | 0 <= k < m
          ensures raw[5 + k] == c.data[k]
        {
          assert block[5 .. 5 + |c.data|][k] == c.data[k];
        }
      }
    }
  }

  /** What read_from_file makes of slot j of a compiled region holding
      `slot` there: an empty slot stays empty; an empty payload leaves no
      prefix to unpack; any other chunk comes back with the slot's
      coordinates and with its payload cut to what fits in the announced
      sectors after the prefix. */
  function ReadBack(slot: Option<ChunkValue>, j: nat): (r: Result<Option<ChunkValue>, Error>)
    ensures r == Ok(None) <==> slot.None?
    ensures r.Err? <==> slot.Some? && |slot.value.data| == 0
    ensures r.Ok? && slot.Some? ==>
              && r.value.Some? && r.value.value.x == j % 32 && r.value.value.z == j / 32
              && r.value.value.timestamp == slot.value.timestamp
              && r.value.value.compression == slot.value.compression
              && 1 <= |r.value.value.data| && r.value.value.data <= slot.value.data
  {
    match slot
    case None => Ok(None)
    case Some(c) =>
      if |c.data| == 0 then Err(TruncatedChunkHeader(0))
      else Ok(Some(c.(x := j % 32, z := j / 32, data := c.data[..Min(|c.data|, Sections(c.data) * SectorSize - 5)])))
  }

  /** A slot reads back as it was written exactly when its chunk sits at
      the slot's own coordinates and its payload length L has
      `1 <= L % 4096 <= 4091`. */
  lemma ReadBackExact(slot: Option<ChunkValue>, j: nat)
    ensures ReadBack(slot, j) == Ok(slot) <==>
            (slot.Some? ==> && slot.value.x == j % 32 && slot.value.z == j / 32
                            && 1 <= |slot.value.data| % SectorSize <= 4091)
  {
    if slot.Some? {
      var c := slot.value;
      SectorsHoldPrefixedPayload(c.data);
      if |c.data| > 0 {
        var m := Min(|c.data|, Sections(c.data) * SectorSize - 5);
        assert |c.data[..m]| == m;
        if m == |c.data| {
          assert c.data[..m] == c.data;
        }
      }
    }
  }

  /** Parsing slot j of a compiled region gives ReadBack of the slot. */
  lemma ParseCompiledSlot(grid: Grid, image: seq<byte>, j: nat)
    requires WellFormed(grid) && Laid(grid, SlotCount, image) && j < SlotCount
    ensures |image| >= HeaderSize && ParseSlot(image, j) == ReadBack(grid[j], j)
  {
    CompiledEntries(grid, image, j);
    if grid[j].Some? {
      CompiledRaw(grid, image, j);
      OffsetsIncrease(grid, j, SlotCount);
      ParseBlock(image, j, SectorOffset(grid, j), grid[j].value);
    }
  }

  /** Every slot of the bytes compile_region_file returns reads back as
      ReadBack says. */
  lemma CompiledReadBack(grid: Grid)
    requires WellFormed(grid) && Compile(grid).Ok?
    ensures |Compile(grid).value| >= HeaderSize
    ensures forall j | 0 <= j < SlotCount :: ParseSlot(Compile(grid).value, j) == ReadBack(grid[j], j)
  {
    CompileLayout(grid);
    var image := Compile(grid).value;
    forall j | 0 <= j < SlotCount
      ensures |image| >= HeaderSize && ParseSlot(image, j) == ReadBack(grid[j], j)
    {
      ParseCompiledSlot(grid, image, j);
    }
    ParseCompiledSlot(grid, image, 0);
  }

  /** Round trip. Compile a grid, then parse the result: the grid comes
      back exactly when every chunk sits at its slot's coordinates and
      every payload length L has `1 <= L % 4096 <= 4091`. */
  lemma RoundTrip(grid: Grid)
    requires WellFormed(grid) && Compile(grid).Ok?
    ensures ParseImage(Compile(grid).value) == Ok(grid) <==>
            forall j | 0 <= j < SlotCount && grid[j].Some? ::
              && grid[j].value.x == j % 32 && grid[j].value.z == j / 32
              && 1 <= |grid[j].value.data| % SectorSize <= 4091
  {
    CompiledReadBack(grid);
    var image := Compile(grid).value;
    if forall j | 0 <= j < SlotCount && grid[j].Some? ::
         && grid[j].value.x == j % 32 && grid[j].value.z == j / 32
         && 1 <= |grid[j].value.data| % SectorSize <= 4091
    {
      forall j | 0 <= j < SlotCount
        ensures ParseSlot(image, j) == Ok(grid[j])
      {
        ReadBackExact(grid[j], j);
      }
      CollectAllOk(SlotResults(image), 0);
      assert ParseImage(image).value == grid;
    } else {
      var j :| && 0 <= j < SlotCount && grid[j].Some?
               && !(&& grid[j].value.x == j % 32 && grid[j].value.z == j / 32
                    && 1 <= |grid[j].value.data| % SectorSize <= 4091);
      ReadBackExact(grid[j], j);
      assert ParseSlot(image, j) != Ok(grid[j]);
    }
  }
}
