/** The region file container (region.py): an 8192-byte header of 1024
    location entries and 1024 timestamps, followed by 4096-byte sectors
    holding the chunks of a 32x32 grid.

    The source keeps the grid as a dictionary of dictionaries,
    `chunks[z][x]`; here it is one sequence of 1024 slots, slot
    `z * 32 + x`, which is the loop index both loops of region.py use. */
module Regions {
  import opened Wrappers
  import opened Bytes
  import opened Errors
  import opened Chunks

  const HeaderSize: nat := 8192
  const SlotCount: nat := 1024

  /** The grid as values: one optional chunk per slot. */
  type Grid = g: seq<Option<ChunkValue>> | |g| == 1024 witness EmptyGrid()

  function EmptyGrid(): seq<Option<ChunkValue>> {
    seq(1024, _ => None)
  }

  /** The tags of a grid whose chunks were all built by Chunk.__init__. */
  ghost predicate WellFormed(grid: Grid) {
    forall j | 0 <= j < 1024 && grid[j].Some? :: grid[j].value.compression in ConstructibleSchemes
  }

  /** calculate_chunk_location_offset: the byte offset of a chunk's entry
      in the location table, and of its timestamp within the timestamp
      table. */
  function ChunkLocationOffset(x: int, z: int): (r: Result<nat, Error>)
    ensures r.Ok? <==> 0 <= x < 32 && 0 <= z < 32
    ensures !(0 <= x < 32) ==> r == Err(CoordinateOutOfBounds('X'))
    ensures 0 <= x < 32 && !(0 <= z < 32) ==> r == Err(CoordinateOutOfBounds('Z'))
    ensures r.Ok? ==> r.value % 4 == 0 && r.value <= 4092 && r.value / 4 == z * 32 + x
  {
    if !(0 <= x < 32) then Err(CoordinateOutOfBounds('X'))
    else if !(0 <= z < 32) then Err(CoordinateOutOfBounds('Z'))
    else Ok(4 * ((x % 32) + (z % 32) * 32))
  }

  // ---------------------------------------------------------------------
  // Parsing (read_from_file over an in-memory image of the file)
  // ---------------------------------------------------------------------

  /** The 3-byte big-endian sector offset of a slot's location entry. */
  function SlotOffset(image: seq<byte>, slot: nat): (offset: nat)
    requires |image| >= HeaderSize && slot < SlotCount
    ensures offset < 0x100_0000
    ensures offset == 0 <==> image[4 * slot] == image[4 * slot + 1] == image[4 * slot + 2] == 0
  {
    image[4 * slot] as int * 0x1_0000 + image[4 * slot + 1] as int * 0x100 + image[4 * slot + 2]
  }

  /** The sector count byte of a slot's location entry. */
  function SlotSectorCount(image: seq<byte>, slot: nat): (count: nat)
    requires |image| >= HeaderSize && slot < SlotCount
    ensures count < 256
  {
    image[4 * slot + 3]
  }

  /** A slot's entry in the timestamp table. */
  function SlotTimestamp(image: seq<byte>, slot: nat): (stamp: Timestamp)
    requires |image| >= HeaderSize && slot < SlotCount
    ensures forall k | 0 <= k < 4 :: stamp[k] == image[SectorSize + 4 * slot + k]
  {
    image[SectorSize + 4 * slot .. SectorSize + 4 * slot + 4]
  }

  /** One iteration of read_from_file's loop. An offset of 0 leaves the
      slot alone. Otherwise `sector_count * 4096` bytes are read at
      `offset * 4096` (fewer at the end of the file); fewer than 5 bytes
      cannot be unpacked into the length field and the tag; the payload is
      `raw[5 : length + 5]`, silently shorter when the sectors read do not
      hold `length` bytes; and the chunk is then constructed. */
  function ParseSlot(image: seq<byte>, slot: nat): (r: Result<Option<ChunkValue>, Error>)
    requires |image| >= HeaderSize && slot < SlotCount
    ensures r == Ok(None) <==> SlotOffset(image, slot) == 0
    ensures r.Ok? && r.value.Some? ==>
              var c := r.value.value;
              && c.x == slot % 32 && c.z == slot / 32
              && c.timestamp == SlotTimestamp(image, slot)
              && c.compression in ConstructibleSchemes
    ensures r.Err? ==> r.error.TruncatedChunkHeader? || r.error.InvalidScheme? || r.error == CustomSchemeUnsupported
  {
    var offset := SlotOffset(image, slot);
    if offset == 0 then Ok(None)
    else
      var raw := ReadAt(image, offset * SectorSize, SlotSectorCount(image, slot) * SectorSize);
      if |raw| < 5 then Err(TruncatedChunkHeader(|raw|))
      else
        var streamLength := UnpackU32(raw[0..4]);
        var compressionType := raw[4];
        var nbtData := raw[5 .. Min(streamLength + 5, |raw|)];
        match InitCheck(compressionType)
        case Some(e) => Err(e)
        case None => Ok(Some(ChunkValue(slot % 32, slot / 32, SlotTimestamp(image, slot), nbtData, compressionType)))
  }

  /** The bytes a slot's chunk is read from, and what becomes of them:
      the slot fails when fewer than 5 bytes are read or the tag is one
      the constructor rejects; otherwise the tag is byte 4 and the payload
      is the first `length` bytes after the prefix, or fewer when the
      sectors read end first. */
  lemma ParseSlotPayload(image: seq<byte>, slot: nat)
    requires |image| >= HeaderSize && slot < SlotCount && SlotOffset(image, slot) != 0
    ensures var raw := ReadAt(image, SlotOffset(image, slot) * SectorSize, SlotSectorCount(image, slot) * SectorSize);
            && (ParseSlot(image, slot).Err? <==> |raw| < 5 || raw[4] !in ConstructibleSchemes)
            && (|raw| < 5 ==> ParseSlot(image, slot) == Err(TruncatedChunkHeader(|raw|)))
            && (|raw| >= 5 && InitCheck(raw[4]).Some? ==> ParseSlot(image, slot) == Err(InitCheck(raw[4]).value))
            && (ParseSlot(image, slot).Ok? ==>
                  var c := ParseSlot(image, slot).value.value;
                  && c.compression == raw[4]
                  && |c.data| == Min(UnpackU32(raw[0..4]), |raw| - 5)
                  && c.data == raw[5 .. 5 + |c.data|])
  {
  }

  /** The outcome of every slot of `image`, in slot order. */
  function SlotResults(image: seq<byte>): (rs: seq<Result<Option<ChunkValue>, Error>>)
    requires |image| >= HeaderSize
    ensures |rs| == SlotCount && forall k | 0 <= k < SlotCount :: rs[k] == ParseSlot(image, k)
  {
    seq(SlotCount, k requires 0 <= k < SlotCount => ParseSlot(image, k))
  }

  /** The loop of read_from_file from slot i on, given the outcome of
      each slot: the parsed slots, or the error of a slot that fails. */
  function Collect(rs: seq<Result<Option<ChunkValue>, Error>>, i: nat): (r: Result<seq<Option<ChunkValue>>, Error>)
    requires i <= |rs|
    ensures r.Ok? ==> |r.value| == |rs| - i && forall k | i <= k < |rs| :: rs[k] == Ok(r.value[k - i])
    ensures r.Err? ==> exists k | i <= k < |rs| :: rs[k] == Err(r.error)
    decreases |rs| - i
  {
    if i == |rs| then Ok([])
    else
      match rs[i]
      case Err(e) => Err(e)
      case Ok(s) =>
        match Collect(rs, i + 1)
        case Err(e) => Err(e)
        case Ok(rest) => Ok([s] + rest)
  }

  /** The loop completes exactly when every slot parses. */
  lemma {:induction false} CollectAllOk(rs: seq<Result<Option<ChunkValue>, Error>>, i: nat)
    requires i <= |rs|
    requires forall k | i <= k < |rs| :: rs[k].Ok?
    ensures Collect(rs, i).Ok?
    decreases |rs| - i
  {
    if i < |rs| {
      CollectAllOk(rs, i + 1);
    }
  }

  /** The error of the loop is the error of the first slot that fails. */
  lemma {:induction false} CollectFirstError(rs: seq<Result<Option<ChunkValue>, Error>>, i: nat, k: nat)
    requires i <= k < |rs|
    requires forall j | i <= j < k :: rs[j].Ok?
    requires rs[k].Err?
    ensures Collect(rs, i) == Err(rs[k].error)
    decreases k - i
  {
    if i < k {
      CollectFirstError(rs, i + 1, k);
    }
  }

  /** read_from_file on a file holding `image`: the header check, then
      every slot in order. A slot that comes back None keeps what the
      region held before. */
  function ParseImage(image: seq<byte>): (r: Result<seq<Option<ChunkValue>>, Error>)
    ensures |image| < HeaderSize <==> r.Err? && r.error.HeadersError?
    ensures |image| < HeaderSize ==> r == Err(HeadersError(|image|))
    ensures r.Ok? ==> |r.value| == SlotCount && forall k | 0 <= k < SlotCount :: ParseSlot(image, k) == Ok(r.value[k])
  {
    if Min(|image|, HeaderSize) != HeaderSize then Err(HeadersError(|image|))
    else Collect(SlotResults(image), 0)
  }

  // ---------------------------------------------------------------------
  // Compiling (compile_region_file)
  // ---------------------------------------------------------------------

  /** The zero padding appended after a chunk of `length` bytes and its
      5-byte prefix: `4096 - ((length + 5) % 4096)`. It always completes a
      sector, but when the prefixed chunk already ends on a sector
      boundary it adds a whole spurious sector rather than nothing. */
  function Padding(length: nat): (p: nat)
    ensures 1 <= p <= SectorSize
    ensures (length + 5 + p) % SectorSize == 0
    ensures p == SectorSize <==> (length + 5) % SectorSize == 0
  {
    SectorSize - ((length + 5) % SectorSize)
  }

  /** The length of the block written for a chunk of `length` bytes. */
  function BlockLength(length: nat): (n: nat)
    ensures length + 5 < n <= length + 5 + SectorSize
  {
    length + 5 + Padding(length)
  }

  /** The block `temp` compile_region_file appends for a chunk: the
      4-byte big-endian payload length, the tag, the payload, the padding. */
  function Block(c: ChunkValue): (b: seq<byte>)
    requires |c.data| < 0x1_0000_0000 && 0 <= c.compression < 256
    ensures |b| == BlockLength(|c.data|) && |b| % SectorSize == 0
    ensures b[..4] == PackU32(|c.data|) && b[4] == c.compression && b[5 .. 5 + |c.data|] == c.data
    ensures forall k | 5 + |c.data| <= k < |b| :: b[k] == 0
  {
    PackU32(|c.data|) + [c.compression as byte] + c.data + Zeros(Padding(|c.data|))
  }

  /** The location entry written for a chunk: the three low bytes of its
      sector offset, then its sector count. */
  function LocationEntry(offset: nat, sections: nat): (e: seq<byte>)
    requires offset < 0x100_0000 && sections < 256
    ensures |e| == 4
    ensures e[0] as int * 0x1_0000 + e[1] as int * 0x100 + e[2] as int == offset && e[3] == sections
  {
    LowThreeBytes(offset);
    PackU32(offset)[1..] + [sections as byte]
  }

  /** The loop of compile_region_file from slot i on, `result` being the
      bytearray built so far. For each chunk, in this order: its location
      offset (a ValueError for coordinates off the grid), the next free
      sector `len(result) // 4096` (an OverflowError from 2^24 on), its
      sector count (an OverflowError above 255), the header pointer (an
      OverflowError above 256^4); then the block is appended and the
      location and timestamp entries are patched in. */
  function CompileFrom(grid: Grid, i: nat, result: seq<byte>): (r: Result<seq<byte>, Error>)
    requires WellFormed(grid) && i <= SlotCount && |result| >= HeaderSize
    ensures r.Ok? ==> |r.value| >= |result|
    decreases SlotCount - i
  {
    if i == SlotCount then Ok(result)
    else
      match grid[i]
      case None => CompileFrom(grid, i + 1, result)
      case Some(c) =>
        var sectionCount := Sections(c.data);
        match ChunkLocationOffset(i % 32, i / 32)
        case Err(e) => Err(e)
        case Ok(pointer) =>
          var chunkOffset := |result| / SectorSize;
          if chunkOffset >= 0x100_0000 then Err(ChunkOffsetOverflow(chunkOffset))
          else if sectionCount > 255 then Err(ChunkSizeOverflow(sectionCount))
          else if pointer > 0x1_0000_0000 then Err(ChunkPointerOverflow(pointer))
          else
            var grown := result + Block(c);
            var located := Patch(grown, pointer, LocationEntry(chunkOffset, sectionCount));
            CompileFrom(grid, i + 1, Patch(located, pointer + SectorSize, c.timestamp))
  }

  /** One iteration of compile_region_file's loop on a chunk: its
      OverflowErrors in the order they are checked, or the next
      bytearray, with the block appended and the entries patched in at
      `4 * i`, the offset calculate_chunk_location_offset gives slot i.
      An empty slot is skipped. */
  lemma CompileStep(grid: Grid, i: nat, result: seq<byte>)
    requires WellFormed(grid) && i < SlotCount && |result| >= HeaderSize
    ensures grid[i].None? ==> CompileFrom(grid, i, result) == CompileFrom(grid, i + 1, result)
    ensures grid[i].Some? ==>
            var c, offset := grid[i].value, |result| / SectorSize;
            && (offset >= 0x100_0000 ==> CompileFrom(grid, i, result) == Err(ChunkOffsetOverflow(offset)))
            && (offset < 0x100_0000 && Sections(c.data) > 255 ==>
                  CompileFrom(grid, i, result) == Err(ChunkSizeOverflow(Sections(c.data))))
            && (offset < 0x100_0000 && Sections(c.data) <= 255 ==>
                  && |c.data| < 0x1_0000_0000
                  && CompileFrom(grid, i, result) ==
                     CompileFrom(grid, i + 1, Patch(Patch(result + Block(c), 4 * i, LocationEntry(offset, Sections(c.data))),
                                                    4 * i + SectorSize, c.timestamp)))
  {
    if grid[i].Some? {
      SlotPointer(i);
      SectionsBound(grid[i].value.data);
    }
  }

  /** Slot i's entries sit at `4 * i`: the slot's coordinates are on the
      grid, so the location offset is defined. */
  lemma SlotPointer(i: nat)
    requires i < SlotCount
    ensures ChunkLocationOffset(i % 32, i / 32) == Ok(4 * i)
  {
    assert i % 32 + 32 * (i / 32) == i;
  }

  /** A payload of at most 255 sectors fits the 4-byte length field. */
  lemma SectionsBound(data: seq<byte>)
    ensures Sections(data) <= 255 ==> |data| <= 255 * SectorSize < 0x1_0000_0000
  {
  }

  /** compile_region_file: start from 8192 zero bytes and run the loop. */
  function Compile(grid: Grid): (r: Result<seq<byte>, Error>)
    requires WellFormed(grid)
    ensures r.Ok? ==> |r.value| >= HeaderSize
  {
    CompileFrom(grid, 0, Zeros(HeaderSize))
  }

  // ---------------------------------------------------------------------
  // The Region object
  // ---------------------------------------------------------------------

  class Region {
    /** The slots, `chunks[z * 32 + x]`; null is Python's None. */
    var chunks: seq<Chunk?>

    /** 1024 slots, each chunk valid, and no chunk object in two slots
        (every chunk is created for the one slot it is read into). */
    ghost predicate Valid()
      reads this, chunks
    {
      && |chunks| == SlotCount
      && (forall j | 0 <= j < SlotCount && chunks[j] != null :: chunks[j].Valid())
      && (forall j, k | 0 <= j < k < SlotCount && chunks[j] != null :: chunks[j] != chunks[k])
    }

    /** The grid the region holds, as values. */
    ghost function Slots(): (g: Grid)
      requires Valid()
      reads this, chunks
      ensures WellFormed(g)
      ensures forall j | 0 <= j < SlotCount :: g[j] == if chunks[j] == null then None else Some(chunks[j].Value())
    {
      seq(|chunks|, j requires 0 <= j < |chunks| reads this, chunks =>
        if chunks[j] == null then None else Some(chunks[j].Value()))
    }

    /** Region.__init__ with create_empty_region: every slot empty. */
    constructor ()
      ensures Valid() && Slots() == EmptyGrid()
    {
      chunks := CreateEmptyRegion();
    }

    /** read_from_file over an in-memory image. The outcome is the
        outcome of ParseImage. On success every slot whose entry has a
        non-zero offset holds a new chunk with the parsed value and every
        other slot keeps its chunk; after a failure the slots before the
        failing one have been assigned, as in the source. */
    method ReadFromFile(image: seq<byte>) returns (r: Outcome<Error>)
      requires Valid()
      modifies this
      ensures Valid()
      ensures r.Fail? <==> ParseImage(image).Err?
      ensures r.Fail? ==> r.error == ParseImage(image).error
      ensures r.Pass? ==> forall j | 0 <= j < SlotCount ::
                (ParseImage(image).value[j].None? ==> chunks[j] == old(chunks[j])) &&
                (ParseImage(image).value[j].Some? ==> chunks[j] != null && fresh(chunks[j]) &&
                                                      chunks[j].Value() == ParseImage(image).value[j].value)
    {
      if Min(|image|, HeaderSize) != HeaderSize {
        return Fail(HeadersError(|image|));
      }
      var x := 0;
      while x < SlotCount
        invariant 0 <= x <= SlotCount
        invariant Valid()
        invariant forall j | 0 <= j < x :: ParseSlot(image, j).Ok?
        invariant forall j | 0 <= j < x && ParseSlot(image, j).value.Some? ::
                    chunks[j] != null && fresh(chunks[j]) && chunks[j].Value() == ParseSlot(image, j).value.value
        invariant forall j | 0 <= j < SlotCount && (x <= j || ParseSlot(image, j).value.None?) :: chunks[j] == old(chunks[j])
      {
        var slot := ParseSlot(image, x);
        if slot.Err? {
          CollectFirstError(SlotResults(image), 0, x);
          return Fail(slot.error);
        }
        if slot.value.Some? {
          PlaceChunk(x, slot.value.value);
        }
        x := x + 1;
      }
      CollectAllOk(SlotResults(image), 0);
      r := Pass;
    }

    /** The assignment `chunks[z][x] = Chunk(...)` of read_from_file:
        slot x gets a new chunk holding v, no other slot changes. */
    method PlaceChunk(x: nat, v: ChunkValue)
      requires Valid() && x < SlotCount && InitCheck(v.compression).None?
      modifies this
      ensures Valid()
      ensures |chunks| == SlotCount && chunks[x] != null && fresh(chunks[x]) && chunks[x].Value() == v
      ensures forall j | 0 <= j < SlotCount && j != x :: chunks[j] == old(chunks[j])
    {
      var c := new Chunk(v.x, v.z, v.timestamp, v.data, v.compression);
      chunks := chunks[x := c];
    }

    /** compile_region_file: the bytes of ParseImage's counterpart. */
    method CompileRegionFile() returns (r: Result<seq<byte>, Error>)
      requires Valid()
      ensures r == Compile(Slots())
    {
      var result := Zeros(HeaderSize);
      var x := 0;
      while x < SlotCount
        invariant 0 <= x <= SlotCount && |result| >= HeaderSize
        invariant CompileFrom(Slots(), x, result) == Compile(Slots())
      {
        var xLoc, zLoc := x % 32, x / 32;
        var currentChunk := chunks[x];
        if currentChunk != null {
          var sectionCount := Sections(currentChunk.data);
          var pointerOffset: nat := ChunkLocationOffset(xLoc, zLoc).value;
          var chunkOffset := |result| / SectorSize;
          if chunkOffset >= 0x100_0000 {
            return Err(ChunkOffsetOverflow(chunkOffset));
          } else if sectionCount > 255 {
            return Err(ChunkSizeOverflow(sectionCount));
          }
          var temp := PackU32(|currentChunk.data|) + [currentChunk.compression as byte];
          temp := temp + currentChunk.data;
          temp := temp + Zeros(SectorSize - ((|currentChunk.data| + 5) % SectorSize));
          assert temp == Block(currentChunk.Value());
          result := result + temp;
          result := Patch(result, pointerOffset, PackU32(chunkOffset)[1..] + [sectionCount as byte]);
          result := Patch(result, pointerOffset + SectorSize, currentChunk.timestamp);
        }
        x := x + 1;
      }
      r := Ok(result);
    }
  }

  /** create_empty_region: 1024 empty slots. */
  function CreateEmptyRegion(): (slots: seq<Chunk?>)
    ensures |slots| == SlotCount && forall j | 0 <= j < SlotCount :: slots[j] == null
  {
    seq(SlotCount, _ => null)
  }
}
