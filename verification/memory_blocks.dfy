/** The GBA core's memory-block catalogue: the table of address regions
    it lists to debuggers and frontends, chosen by save-data type and
    cached per type, and the lookup of one region's backing store and
    size. The `GBA_REGION_*`, `GBA_BASE_*` and `GBA_SIZE_*` constants
    are symbolic: a `Platform` carries them, and the model relies only
    on the region ids being distinct. */
module MemoryBlocks {
  import opened Wrappers

  /** The `GBA_REGION_*` ids the core names. */
  datatype RegionIds = RegionIds(
    bios: nat, ewram: nat, iwram: nat, io: nat, palette: nat, vram: nat, oam: nat,
    rom0: nat, rom1: nat, rom2: nat, sram: nat, sramMirror: nat)
  {
    function All(): seq<nat> {
      [bios, ewram, iwram, io, palette, vram, oam, rom0, rom1, rom2, sram, sramMirror]
    }

    /** The ids are distinct, as the `case` labels of a C `switch` must be. */
    predicate Distinct() {
      forall i, j :: 0 <= i < j < |All()| ==> All()[i] != All()[j]
    }

    /** Names each position of `All()`, so that `Distinct()` can be used
        on any two named ids. */
    lemma Positions()
      ensures All()[0] == bios && All()[1] == ewram && All()[2] == iwram && All()[3] == io
      ensures All()[4] == palette && All()[5] == vram && All()[6] == oam && All()[7] == rom0
      ensures All()[8] == rom1 && All()[9] == rom2 && All()[10] == sram && All()[11] == sramMirror
    {
    }

    predicate IsRom(id: int) {
      id == rom0 || id == rom1 || id == rom2
    }
  }

  /** The `GBA_BASE_*` start addresses. */
  datatype Bases = Bases(
    bios: nat, ewram: nat, iwram: nat, io: nat, palette: nat, vram: nat, oam: nat,
    rom0: nat, rom1: nat, rom2: nat, sram: nat)

  /** The `GBA_SIZE_*` region sizes in bytes. */
  datatype Sizes = Sizes(
    bios: nat, ewram: nat, iwram: nat, io: nat, palette: nat, vram: nat, oam: nat,
    rom0: nat, rom1: nat, rom2: nat,
    sram: nat, sram512: nat, flash512: nat, flash1M: nat, eeprom: nat, eeprom512: nat)

  datatype Platform = Platform(id: RegionIds, base: Bases, size: Sizes) {
    predicate Valid() {
      id.Distinct()
    }
  }

  /** The numeric codes of the other save types (autodetect, none). The
      cache compares its tag with the save type as a plain `int`, so a
      save type coded -2 would pass for the invalidated tag; no save type
      has that code. */
  type OtherSaveCode = c: int | c != -2 witness 0

  /** The save-data types the catalogue distinguishes; every other type
      keeps its numeric code. */
  datatype SaveType =
    | Sram | Sram512 | Flash512 | Flash1M | Eeprom | Eeprom512
    | OtherSave(code: OtherSaveCode)

  /** The save types whose table carries a twelfth, save-memory row. */
  predicate HasSaveRow(t: SaveType) {
    !t.OtherSave?
  }

  datatype MemFlag = Read | Write | Worm | Mapped | Virtual

  /** The flags of a row. The two SRAM rows give the C literal `true`
      where every other row names flags, so they keep that literal. */
  datatype BlockFlags = Named(flags: set<MemFlag>) | BoolLiteral(b: bool)

  /** One `struct mCoreMemoryBlock`. `id` is -1 for the virtual "All" row. */
  datatype Block = Block(
    id: int, internalName: string, shortName: string, longName: string,
    start: nat, end: nat, size: nat, flags: BlockFlags,
    maxSegment: nat, segmentStart: nat)

  function Row(id: int, internalName: string, shortName: string, longName: string,
               start: nat, end: nat, size: nat, flags: set<MemFlag>): Block
  {
    Block(id, internalName, shortName, longName, start, end, size, Named(flags), 0, 0)
  }

  const RW: set<MemFlag> := {Read, Write}

  /** The eleven rows every table starts with (`_GBAMemoryBlocks`). */
  function CommonRows(p: Platform): (rows: seq<Block>)
    ensures |rows| == 11
  {
    var id, b, s := p.id, p.base, p.size;
    [ Row(-1, "mem", "All", "All", 0, 0x1000_0000, 0x1000_0000, {Virtual}),
      Row(id.bios, "bios", "BIOS", "BIOS (16kiB)", b.bios, s.bios, s.bios, {Read, Mapped}),
      Row(id.ewram, "wram", "EWRAM", "Working RAM (256kiB)", b.ewram, b.ewram + s.ewram, s.ewram, RW + {Mapped}),
      Row(id.iwram, "iwram", "IWRAM", "Internal Working RAM (32kiB)", b.iwram, b.iwram + s.iwram, s.iwram, RW + {Mapped}),
      Row(id.io, "io", "MMIO", "Memory-Mapped I/O", b.io, b.io + s.io, s.io, RW + {Mapped}),
      Row(id.palette, "palette", "Palette", "Palette RAM (1kiB)", b.palette, b.palette + s.palette, s.palette, RW + {Mapped}),
      Row(id.vram, "vram", "VRAM", "Video RAM (96kiB)", b.vram, b.vram + s.vram, s.vram, RW + {Mapped}),
      Row(id.oam, "oam", "OAM", "OBJ Attribute Memory (1kiB)", b.oam, b.oam + s.oam, s.oam, RW + {Mapped}),
      Row(id.rom0, "cart0", "ROM", "Game Pak (32MiB)", b.rom0, b.rom0 + s.rom0, s.rom0, {Read, Worm, Mapped}),
      Row(id.rom1, "cart1", "ROM WS1", "Game Pak (Waitstate 1)", b.rom1, b.rom1 + s.rom1, s.rom1, {Read, Worm, Mapped}),
      Row(id.rom2, "cart2", "ROM WS2", "Game Pak (Waitstate 2)", b.rom2, b.rom2 + s.rom2, s.rom2, {Read, Worm, Mapped}) ]
  }

  /** The save-memory row of each of the six save-type tables. */
  function SaveRow(p: Platform, t: SaveType): Block
    requires HasSaveRow(t)
  {
    var id, b, s := p.id, p.base, p.size;
    match t
    case Sram =>
      Block(id.sram, "sram", "SRAM", "Static RAM (32kiB)", b.sram, b.sram + s.sram, s.sram, BoolLiteral(true), 0, 0)
    case Sram512 =>
      Block(id.sram, "sram", "SRAM", "Static RAM (64kiB)", b.sram, b.sram + s.sram512, s.sram512, BoolLiteral(true), 0, 0)
    case Flash512 =>
      Row(id.sram, "sram", "Flash", "Flash Memory (64kiB)", b.sram, b.sram + s.flash512, s.flash512, RW + {Mapped})
    case Flash1M =>
      Block(id.sram, "sram", "Flash", "Flash Memory (128kiB)", b.sram, b.sram + s.flash512, s.flash1M,
            Named(RW + {Mapped}), 1, b.sram)
    case Eeprom =>
      Row(id.sramMirror, "eeprom", "EEPROM", "EEPROM (8kiB)", 0, s.eeprom, s.eeprom, RW)
    case Eeprom512 =>
      Row(id.sramMirror, "eeprom", "EEPROM", "EEPROM (512B)", 0, s.eeprom, s.eeprom512, RW)
  }

  /** The static table `_GBACoreListMemoryBlocks` copies for a save type. */
  function StaticTable(p: Platform, t: SaveType): (rows: seq<Block>)
    ensures |rows| == if HasSaveRow(t) then 12 else 11
    ensures rows[..11] == CommonRows(p)
  {
    if HasSaveRow(t) then CommonRows(p) + [SaveRow(p, t)] else CommonRows(p)
  }

  /** In every static table the ROM rows are rows 8, 9 and 10, in the
      order ROM0, ROM1, ROM2, and no other row carries a ROM id. */
  lemma StaticRomRows(p: Platform, t: SaveType)
    requires p.Valid()
    ensures var table := StaticTable(p, t);
            table[8].id == p.id.rom0 && table[9].id == p.id.rom1 && table[10].id == p.id.rom2
    ensures var table := StaticTable(p, t);
            forall i :: 0 <= i < |table| ==> (p.id.IsRom(table[i].id) <==> 8 <= i <= 10)
  {
    p.id.Positions();
    var table := StaticTable(p, t);
    assert table[..11] == CommonRows(p);
    forall i | 0 <= i < |table|
      ensures p.id.IsRom(table[i].id) <==> 8 <= i <= 10
    {
      if i < 11 {
        assert table[i] == CommonRows(p)[i];
      } else {
        assert table[i] == SaveRow(p, t);
      }
    }
  }

  /** The rows `_GBACoreListMemoryBlocks` hands out: the save type's
      table, eleven or twelve rows, whose ROM0, ROM1 and ROM2 rows (rows
      8 to 10) report the size of the loaded ROM, every other row being
      the static row untouched. */
  function Catalogue(p: Platform, t: SaveType, romSize: nat): (rows: seq<Block>)
    requires p.Valid()
    ensures |rows| == |StaticTable(p, t)| == if HasSaveRow(t) then 12 else 11
    ensures rows[8].id == p.id.rom0 && rows[9].id == p.id.rom1 && rows[10].id == p.id.rom2
    ensures forall i :: 8 <= i <= 10 ==> rows[i] == StaticTable(p, t)[i].(size := romSize)
    ensures forall i :: 0 <= i < |rows| && !(8 <= i <= 10) ==>
              !p.id.IsRom(rows[i].id) && rows[i] == StaticTable(p, t)[i]
  {
    StaticRomRows(p, t);
    var table := StaticTable(p, t);
    seq(|table|, i requires 0 <= i < |table| =>
      if p.id.IsRom(table[i].id) then table[i].(size := romSize) else table[i])
  }

  /** The memory-block cache of `struct GBACore`: `memoryBlockType` and
      the copied rows. `Invalidated` is the value -2 that loading a ROM
      and resetting store, which no save type has. */
  datatype CacheTag = Invalidated | Built(t: SaveType)
  datatype BlockCache = BlockCache(tag: CacheTag, blocks: seq<Block>)

  /** The copy-then-patch loop of `_GBACoreListMemoryBlocks`. */
  method BuildCatalogue(p: Platform, t: SaveType, romSize: nat) returns (blocks: seq<Block>)
    requires p.Valid()
    ensures blocks == Catalogue(p, t, romSize)
  {
    blocks := StaticTable(p, t);
    var i := 0;
    while i < |blocks|
      invariant 0 <= i <= |blocks| == |StaticTable(p, t)|
      invariant forall k :: 0 <= k < i ==> blocks[k] == Catalogue(p, t, romSize)[k]
      invariant forall k :: i <= k < |blocks| ==> blocks[k] == StaticTable(p, t)[k]
    {
      if p.id.IsRom(blocks[i].id) {
        blocks := blocks[i := blocks[i].(size := romSize)];
      }
      i := i + 1;
    }
  }

  /** `_GBACoreListMemoryBlocks`: rebuild the rows when the cached tag is
      not the current save type, then hand out the cached rows. */
  method ListMemoryBlocks(p: Platform, cache: BlockCache, t: SaveType, romSize: nat)
    returns (cache': BlockCache, blocks: seq<Block>)
    requires p.Valid()
    ensures cache' == ListBlocks(p, cache, t, romSize)
    ensures blocks == cache'.blocks
  {
    if cache.tag != Built(t) {
      var rows := BuildCatalogue(p, t, romSize);
      cache' := BlockCache(Built(t), rows);
    } else {
      cache' := cache;
    }
    blocks := cache'.blocks;
  }

  /** The cache after a `listMemoryBlocks` call. */
  function ListBlocks(p: Platform, cache: BlockCache, t: SaveType, romSize: nat): (r: BlockCache)
    requires p.Valid()
    ensures r.tag == Built(t)
    ensures cache.tag == Built(t) ==> r == cache
    ensures cache.tag != Built(t) ==> r.blocks == Catalogue(p, t, romSize)
  {
    if cache.tag != Built(t) then BlockCache(Built(t), Catalogue(p, t, romSize)) else cache
  }

  /** What `loadROM` (for an ordinary ROM image, not an ELF file or a
      multiboot image) and `reset` do to the cache. */
  function Invalidate(cache: BlockCache): (r: BlockCache)
    ensures r.tag == Invalidated
    ensures r.blocks == cache.blocks
  {
    cache.(tag := Invalidated)
  }

  /** The kinds of image `loadROM` tells apart. */
  datatype RomImage = ElfImage | MultibootImage | RomFile

  function LoadRom(cache: BlockCache, image: RomImage): (r: BlockCache)
    ensures image == RomFile ==> r.tag == Invalidated
    ensures image != RomFile ==> r == cache
  {
    if image == RomFile then Invalidate(cache) else cache
  }

  // ---------------------------------------------------------------------
  // Looking up one region

  /** The buffer `_GBACoreGetMemoryBlock` returns a pointer to. */
  datatype Backing = BiosMem | WorkRam | InternalRam | PaletteRam | VideoRam | ObjAttrRam | RomMem
                   | FlashBank | SaveData

  datatype Region = Region(backing: Backing, size: nat)

  /** The part of `struct GBA` the lookup reads. `savedataSize` is what
      `GBASavedataSize` reports for the current save memory. */
  datatype Memory = Memory(saveType: SaveType, romSize: nat, savedataSize: nat)

  /** `_GBACoreGetMemoryBlock`; None is the NULL it returns for ids it
      does not serve. */
  function GetMemoryBlock(p: Platform, m: Memory, id: nat): (r: Option<Region>)
    requires p.Valid()
    ensures r.None? <==> id !in p.id.All() || id == p.id.io
    ensures p.id.IsRom(id) ==> r == Some(Region(RomMem, m.romSize))
    ensures id == p.id.sram ==>
              r == if m.saveType == Flash1M then Some(Region(FlashBank, p.size.flash1M))
                   else Some(Region(SaveData, m.savedataSize))
    ensures id == p.id.sramMirror ==> r == Some(Region(SaveData, m.savedataSize))
  {
    var ids := p.id;
    ids.Positions();
    if id == ids.bios then Some(Region(BiosMem, p.size.bios))
    else if id == ids.ewram then Some(Region(WorkRam, p.size.ewram))
    else if id == ids.iwram then Some(Region(InternalRam, p.size.iwram))
    else if id == ids.palette then Some(Region(PaletteRam, p.size.palette))
    else if id == ids.vram then Some(Region(VideoRam, p.size.vram))
    else if id == ids.oam then Some(Region(ObjAttrRam, p.size.oam))
    else if id == ids.rom0 || id == ids.rom1 || id == ids.rom2 then Some(Region(RomMem, m.romSize))
    else if id == ids.sram && m.saveType == Flash1M then Some(Region(FlashBank, p.size.flash1M))
    else if id == ids.sram || id == ids.sramMirror then Some(Region(SaveData, m.savedataSize))
    else None
  }

  // ---------------------------------------------------------------------
  // Properties of the catalogue

  /** Twelve rows for the six save types with save memory, eleven for the
      rest. */
  lemma RowCount(p: Platform, t: SaveType, romSize: nat)
    requires p.Valid()
    ensures t in [Sram, Sram512, Flash512, Flash1M, Eeprom, Eeprom512] ==> |Catalogue(p, t, romSize)| == 12
    ensures t.OtherSave? ==> |Catalogue(p, t, romSize)| == 11
  {
  }

  /** A second call with the save type unchanged hands back the cached
      rows, even if the ROM size changed in between; only an invalidation
      makes the next call rebuild. */
  lemma RepeatCallUsesCache(p: Platform, cache: BlockCache, t: SaveType, romSize: nat, romSize': nat)
    requires p.Valid()
    ensures var first := ListBlocks(p, cache, t, romSize);
            ListBlocks(p, first, t, romSize') == first
  {
  }

  /** After loading a ROM file or resetting, the next call rebuilds the rows
      from the current save type and ROM size, whatever was cached. */
  lemma InvalidateForcesRebuild(p: Platform, cache: BlockCache, t: SaveType, romSize: nat)
    requires p.Valid()
    ensures ListBlocks(p, LoadRom(cache, RomFile), t, romSize).blocks == Catalogue(p, t, romSize)
    ensures ListBlocks(p, Invalidate(cache), t, romSize).blocks == Catalogue(p, t, romSize)
  {
  }

  /** A change of save type also rebuilds. */
  lemma NewSaveTypeRebuilds(p: Platform, cache: BlockCache, t: SaveType, t': SaveType, romSize: nat, romSize': nat)
    requires p.Valid()
    requires t != t'
    ensures var first := ListBlocks(p, cache, t, romSize);
            ListBlocks(p, first, t', romSize').blocks == Catalogue(p, t', romSize')
  {
  }

  /** The listing and the lookup agree: every listed region other than the
      virtual "All" row and MMIO is served by `GetMemoryBlock` with the
      size the listing reports, provided `GBASavedataSize` reports the
      size of the save row. MMIO is listed but not served. */
  lemma ListAndGetAgree(p: Platform, t: SaveType, romSize: nat, savedataSize: nat, i: nat)
    requires p.Valid()
    requires HasSaveRow(t) ==> savedataSize == SaveRow(p, t).size
    requires i < |Catalogue(p, t, romSize)|
    ensures i == 0 <==> Catalogue(p, t, romSize)[i].id == -1
    ensures var row := Catalogue(p, t, romSize)[i];
            var got := GetMemoryBlock(p, Memory(t, romSize, savedataSize), if row.id < 0 then 0 else row.id);
            0 < i && row.id != p.id.io ==> got.Some? && got.value.size == row.size
    ensures var row := Catalogue(p, t, romSize)[i];
            row.id == p.id.io ==> GetMemoryBlock(p, Memory(t, romSize, savedataSize), p.id.io).None?
  {
    p.id.Positions();
    var table := StaticTable(p, t);
    if i < 11 {
      assert table[i] == CommonRows(p)[i];
    } else {
      assert table[i] == SaveRow(p, t);
    }
  }

  /** For SRAM, only a 1 Mbit flash reports the flash size and the current
      bank; every other save type falls through to the SRAM-mirror case
      and reports the save data and `GBASavedataSize`. */
  lemma SramFallsThrough(p: Platform, m: Memory)
    requires p.Valid()
    requires m.saveType != Flash1M
    ensures GetMemoryBlock(p, m, p.id.sram) == GetMemoryBlock(p, m, p.id.sramMirror)
  {
  }
}
