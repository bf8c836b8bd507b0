/** What compile_region_file writes, stated about the bytes it returns,
    and what read_from_file reads back from them.

    A compiled region is the 8192-byte header followed by one block per
    chunk in slot order. Each block is a whole number of sectors, the
    first one at sector 2. Slot j's location entry holds the block's
    sector offset and the chunk's `calculate_sections()`, and its
    timestamp entry holds the chunk's timestamp. An empty slot leaves
    both entries zero.

    The sector count in the header is the ceiling of the payload length
    over 4096, but the block also holds the 5-byte prefix. So a reader
    that trusts the count gets the payload back exactly when
    `1 <= length % 4096 <= 4091`; otherwise the payload is cut short (or,
    for an empty payload, no prefix is read at all). */
module RegionLayout {
  import opened Wrappers
  import opened Bytes
  import opened Errors
  import opened Chunks
  import opened Regions

  /** The sectors taken by the block of a slot. */
  function BlockSectors(slot: Option<ChunkValue>): nat {
    match slot
    case None => 0
    case Some(c) => BlockLength(|c.data|) / SectorSize
  }

  /** The sectors taken by the blocks of the slots before i. */
  function SectorsBefore(grid: Grid, i: nat): nat
    requires i <= SlotCount
  {
    if i == 0 then 0 else SectorsBefore(grid, i - 1) + BlockSectors(grid[i - 1])
  }

  /** The sector offset compile_region_file gives slot i: the length of
      the output so far, over 4096. */
  function SectorOffset(grid: Grid, i: nat): (offset: nat)
    requires i <= SlotCount
    ensures offset >= 2
  {
    2 + SectorsBefore(grid, i)
  }

  /** Slot j passes compile_region_file's overflow checks. */
  ghost predicate Fits(grid: Grid, j: nat): (fits: bool)
    requires j < SlotCount
    ensures fits && grid[j].Some? ==> |grid[j].value.data| <= 255 * SectorSize
  {
    grid[j].Some? ==> SectorOffset(grid, j) < 0x100_0000 && Sections(grid[j].value.data) <= 255
  }

  /** The OverflowError compile_region_file raises for a slot that does
      not fit: the offset is checked before the sector count. */
  function OverflowAt(grid: Grid, j: nat): (e: Error)
    requires j < SlotCount && grid[j].Some?
    ensures e.ChunkOffsetOverflow? <==> SectorOffset(grid, j) >= 0x100_0000
    ensures e.ChunkOffsetOverflow? ==> e.offset == SectorOffset(grid, j)
    ensures e.ChunkSizeOverflow? ==> e == ChunkSizeOverflow(Sections(grid[j].value.data))
    ensures e.ChunkOffsetOverflow? || e.ChunkSizeOverflow?
  {
    if SectorOffset(grid, j) >= 0x100_0000 then ChunkOffsetOverflow(SectorOffset(grid, j))
    else ChunkSizeOverflow(Sections(grid[j].value.data))
  }

  /** A chunk that fits has a length the 4-byte length field can hold. */
  lemma FitsBlock(grid: Grid, j: nat)
    requires j < SlotCount && grid[j].Some? && Fits(grid, j)
    ensures |grid[j].value.data| <= 255 * SectorSize
  {
  }

  /** The blocks of the slots before i, in slot order. */
  ghost function Body(grid: Grid, i: nat): (b: seq<byte>)
    requires WellFormed(grid) && i <= SlotCount
    requires forall j | 0 <= j < i :: Fits(grid, j)
    ensures |b| == SectorSize * SectorsBefore(grid, i)
  {
    if i == 0 then []
    else
      match grid[i - 1]
      case None => Body(grid, i - 1)
      case Some(c) => FitsBlock(grid, i - 1); Body(grid, i - 1) + Block(c)
  }

  /** Byte k of the header once the slots before i are written. */
  ghost function HeaderByte(grid: Grid, i: nat, k: nat): int
    requires i <= SlotCount && k < HeaderSize
    requires forall j | 0 <= j < i :: Fits(grid, j)
  {
    var j := if k < SectorSize then k / 4 else (k - SectorSize) / 4;
    var at := if k < SectorSize then k - 4 * j else k - SectorSize - 4 * j;
    if i <= j || grid[j].None? then 0
    else assert Fits(grid, j); if k < SectorSize then LocationEntry(SectorOffset(grid, j), Sections(grid[j].value.data))[at]
    else grid[j].value.timestamp[at]
  }

  /** Byte `at` of slot j's location and timestamp entries once the
      slots before i are written. */
  lemma HeaderEntry(grid: Grid, i: nat, j: nat, at: nat)
    requires i <= SlotCount && j < SlotCount && at < 4
    requires forall k | 0 <= k < i :: Fits(grid, k)
    ensures HeaderByte(grid, i, 4 * j + at) ==
              if i <= j || grid[j].None? then 0
              else assert Fits(grid, j); LocationEntry(SectorOffset(grid, j), Sections(grid[j].value.data))[at]
    ensures HeaderByte(grid, i, SectorSize + 4 * j + at) ==
              if i <= j || grid[j].None? then 0 else grid[j].value.timestamp[at]
  {
    assert (4 * j + at) / 4 == j;
    assert (SectorSize + 4 * j + at - SectorSize) / 4 == j;
  }

  /** The header compile_region_file has written after the slots
      before i. */
  ghost predicate HeaderLaid(grid: Grid, i: nat, image: seq<byte>)
    requires i <= SlotCount
  {
    && (forall j | 0 <= j < i :: Fits(grid, j))
    && |image| >= HeaderSize
    && forall k {:trigger HeaderByte(grid, i, k)} | 0 <= k < HeaderSize :: image[k] == HeaderByte(grid, i, k)
  }

  /** The bytearray compile_region_file holds after the slots before i. */
  ghost predicate Laid(grid: Grid, i: nat, image: seq<byte>)
    requires WellFormed(grid) && i <= SlotCount
  {
    && HeaderLaid(grid, i, image)
    && |image| == SectorSize * SectorOffset(grid, i)
    && image[HeaderSize..] == Body(grid, i)
  }

  /** An empty slot changes nothing. */
  lemma LaidEmptySlot(grid: Grid, i: nat, result: seq<byte>)
    requires WellFormed(grid) && i < SlotCount && grid[i].None? && Laid(grid, i, result)
    ensures Laid(grid, i + 1, result)
  {
    forall k | 0 <= k < HeaderSize
      ensures result[k] == HeaderByte(grid, i + 1, k)
    {
      assert result[k] == HeaderByte(grid, i, k);
    }
  }

  /** The bytearray after compile_region_file places slot i's chunk:
      its block appended, its location and timestamp entries patched in. */
  ghost function Placed(grid: Grid, i: nat, result: seq<byte>): (p: seq<byte>)
    requires WellFormed(grid) && i < SlotCount && grid[i].Some? && Fits(grid, i) && |result| >= HeaderSize
    ensures |p| == |result| + BlockLength(|grid[i].value.data|)
  {
    var c := grid[i].value;
    FitsBlock(grid, i);
    Patch(Patch(result + Block(c), 4 * i, LocationEntry(SectorOffset(grid, i), Sections(c.data))),
          4 * i + SectorSize, c.timestamp)
  }

  /** Patching the two header entries of a slot leaves the bytes after
      the header alone. */
  lemma PatchesKeepBody(grown: seq<byte>, i: nat, entry: seq<byte>, stamp: seq<byte>)
    requires |grown| >= HeaderSize && i < SlotCount && |entry| == 4 && |stamp| == 4
    ensures Patch(Patch(grown, 4 * i, entry), 4 * i + SectorSize, stamp)[HeaderSize..] == grown[HeaderSize..]
  {
    var patched := Patch(Patch(grown, 4 * i, entry), 4 * i + SectorSize, stamp);
    forall k | 0 <= k < |grown| - HeaderSize
      ensures patched[HeaderSize..][k] == grown[HeaderSize..][k]
    {
      assert patched[HeaderSize + k] == grown[HeaderSize + k];
    }
  }

  /** Placing slot i's chunk writes its two header entries and keeps
      the rest of the header. */
  lemma PlacedHeader(grid: Grid, i: nat, result: seq<byte>)
    requires WellFormed(grid) && i < SlotCount && grid[i].Some? && Fits(grid, i)
    requires HeaderLaid(grid, i, result)
    ensures HeaderLaid(grid, i + 1, Placed(grid, i, result))
  {
    var c := grid[i].value;
    var entry := LocationEntry(SectorOffset(grid, i), Sections(c.data));
    var patched := Placed(grid, i, result);
    forall k | 0 <= k < HeaderSize
      ensures patched[k] == HeaderByte(grid, i + 1, k)
    {
      if 4 * i <= k < 4 * i + 4 {
        assert patched[k] == entry[k - 4 * i];
      } else if SectorSize + 4 * i <= k < SectorSize + 4 * i + 4 {
        assert patched[k] == c.timestamp[k - SectorSize - 4 * i];
      } else {
        assert patched[k] == result[k] == HeaderByte(grid, i, k);
      }
    }
  }

  /** Placing slot i's chunk appends its block to the blocks after the
      header. */
  lemma PlacedBody(grid: Grid, i: nat, result: seq<byte>)
    requires WellFormed(grid) && i < SlotCount && grid[i].Some? && (forall j | 0 <= j <= i :: Fits(grid, j))
    requires |result| == SectorSize * SectorOffset(grid, i) && result[HeaderSize..] == Body(grid, i)
    ensures |Placed(grid, i, result)| == SectorSize * SectorOffset(grid, i + 1)
    ensures Placed(grid, i, result)[HeaderSize..] == Body(grid, i + 1)
  {
    var c := grid[i].value;
    FitsBlock(grid, i);
    var sectors := BlockSectors(grid[i]);
    assert |Block(c)| == SectorSize * sectors;
    assert SectorOffset(grid, i + 1) == SectorOffset(grid, i) + sectors;
    PatchesKeepBody(result + Block(c), i, LocationEntry(SectorOffset(grid, i), Sections(c.data)), c.timestamp);
    assert Body(grid, i + 1) == Body(grid, i) + Block(c);
    assert (result + Block(c))[HeaderSize..] == result[HeaderSize..] + Block(c);
  }

  /** Appending a chunk's block and patching its two header entries
      extends the layout by one slot. */
  lemma LaidChunk(grid: Grid, i: nat, result: seq<byte>)
    requires WellFormed(grid) && i < SlotCount && grid[i].Some?
    requires Laid(grid, i, result) && Fits(grid, i)
    ensures Laid(grid, i + 1, Placed(grid, i, result))
  {
    PlacedHeader(grid, i, result);
    PlacedBody(grid, i, result);
  }

  /** One iteration of compile_region_file's loop on a chunk, from a
      bytearray whose length puts the chunk at its sector offset: the
      chunk is placed when it fits, and the OverflowError for it is
      raised when it does not. */
  lemma CompileFromChunk(grid: Grid, i: nat, result: seq<byte>)
    requires WellFormed(grid) && i < SlotCount && grid[i].Some? && |result| >= HeaderSize
    requires |result| == SectorSize * SectorOffset(grid, i)
    ensures Fits(grid, i) ==> CompileFrom(grid, i, result) == CompileFrom(grid, i + 1, Placed(grid, i, result))
    ensures !Fits(grid, i) ==> CompileFrom(grid, i, result) == Err(OverflowAt(grid, i))
  {
    CompileStep(grid, i, result);
    assert |result| / SectorSize == SectorOffset(grid, i);
  }

  /** The first slot, from i on, that does not fit. */
  ghost predicate FirstMisfit(grid: Grid, i: nat, j: nat)
    requires i <= j < SlotCount
  {
    !Fits(grid, j) && forall k | i <= k < j :: Fits(grid, k)
  }

  /** Past a slot that fits, the first misfit from i on is the first
      misfit from i + 1 on. */
  lemma MisfitAfterFit(grid: Grid, i: nat)
    requires i < SlotCount && Fits(grid, i)
    ensures forall j | i <= j < SlotCount && FirstMisfit(grid, i, j) :: FirstMisfit(grid, i + 1, j)
  {
  }

  /** A slot that does not fit is the first misfit from itself on. */
  lemma MisfitHere(grid: Grid, i: nat)
    requires i < SlotCount && !Fits(grid, i)
    ensures forall j | i <= j < SlotCount && FirstMisfit(grid, i, j) :: j == i
  {
  }

  /** The loop of compile_region_file, run from any bytearray laid out
      for the slots before i: it completes exactly when every later slot
      fits, and then lays out all 1024 slots; otherwise it raises the
      OverflowError of the first slot that does not fit. */
  lemma {:induction false} CompileFromLaid(grid: Grid, i: nat, result: seq<byte>)
    requires WellFormed(grid) && i <= SlotCount && Laid(grid, i, result)
    ensures CompileFrom(grid, i, result).Ok? ==> Laid(grid, SlotCount, CompileFrom(grid, i, result).value)
    ensures (forall j | i <= j < SlotCount :: Fits(grid, j)) ==> CompileFrom(grid, i, result).Ok?
    ensures forall j | i <= j < SlotCount && FirstMisfit(grid, i, j) :: CompileFrom(grid, i, result) == Err(OverflowAt(grid, j))
    decreases SlotCount - i
  {
    if i < SlotCount {
      match grid[i]
      case None =>
        LaidEmptySlot(grid, i, result);
        CompileFromLaid(grid, i + 1, result);
        assert CompileFrom(grid, i, result) == CompileFrom(grid, i + 1, result);
        MisfitAfterFit(grid, i);
      case Some(c) =>
        CompileFromChunk(grid, i, result);
        if Fits(grid, i) {
          LaidChunk(grid, i, result);
          var next := Placed(grid, i, result);
          CompileFromLaid(grid, i + 1, next);
          MisfitAfterFit(grid, i);
        } else {
          MisfitHere(grid, i);
        }
    }
  }

  /** compile_region_file succeeds exactly when every chunk fits, lays
      out the whole grid when it does, and raises the OverflowError of
      the first chunk that does not fit when it does not. */
  lemma CompileLayout(grid: Grid)
    requires WellFormed(grid)
    ensures Compile(grid).Ok? <==> forall j | 0 <= j < SlotCount :: Fits(grid, j)
    ensures Compile(grid).Ok? ==> Laid(grid, SlotCount, Compile(grid).value)
    ensures forall j | 0 <= j < SlotCount && FirstMisfit(grid, 0, j) :: Compile(grid) == Err(OverflowAt(grid, j))
  {
    assert Laid(grid, 0, Zeros(HeaderSize));
    CompileFromLaid(grid, 0, Zeros(HeaderSize));
    if !(forall j | 0 <= j < SlotCount :: Fits(grid, j)) {
      var j := FirstMisfitExists(grid, 0);
      assert Compile(grid) == Err(OverflowAt(grid, j));
    }
  }

  /** If some slot from i on does not fit, a first one exists. */
  lemma {:induction false} FirstMisfitExists(grid: Grid, i: nat) returns (j: nat)
    requires i <= SlotCount && exists k | i <= k < SlotCount :: !Fits(grid, k)
    ensures i <= j < SlotCount && FirstMisfit(grid, i, j)
    decreases SlotCount - i
  {
    if Fits(grid, i) {
      j := FirstMisfitExists(grid, i + 1);
    } else {
      j := i;
    }
  }
}
