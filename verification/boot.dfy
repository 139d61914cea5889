/** The decision `reset` makes about the BIOS boot animation: whether to
    jump straight to the game. */
module Boot {
  import opened Wrappers

  /** CRC-32 of the Nintendo logo in a licensed cartridge header. */
  const LogoCrc32: bv32 := 0xD0BE_B55E

  /** What the decision reads. `rom` is the ROM buffer (None when no ROM
      is loaded, from a file or in memory) and `crc32` is the checksum
      routine, which is not part of this model. */
  datatype BootInputs = BootInputs(
    multiboot: bool, skipBiosOption: bool, rom: Option<seq<bv8>>,
    pristineRomSize: nat, biosLoaded: bool)

  /** The header bytes the logo check covers: 0x9C bytes from offset 4
      (`&rom[1]` of a 32-bit-word buffer). */
  function LogoBytes(rom: seq<bv8>): (b: seq<bv8>)
    requires |rom| >= 0xA0
    ensures |b| == 0x9C
  {
    rom[4..0xA0]
  }

  /** The reset path's `forceSkip`: skip for a multiboot image, when the
      options ask for it and a ROM is present, or when a real BIOS would
      run a ROM whose logo checksum is wrong. The logo is read only when
      the ROM is at least 0xA0 bytes long. */
  function SkipBios(b: BootInputs, crc32: seq<bv8> -> bv32): (skip: bool)
    requires b.rom.Some? ==> b.pristineRomSize <= |b.rom.value|
    ensures skip <==>
              b.multiboot || (b.skipBiosOption && b.rom.Some?) ||
              (b.rom.Some? && b.pristineRomSize >= 0xA0 && b.biosLoaded &&
               crc32(b.rom.value[4..0xA0]) != LogoCrc32)
  {
    var forceSkip := b.multiboot || (b.skipBiosOption && b.rom.Some?);
    if !forceSkip && b.rom.Some? && b.pristineRomSize >= 0xA0 && b.biosLoaded then
      crc32(LogoBytes(b.rom.value)) != LogoCrc32
    else
      forceSkip
  }

  /** With no ROM and no multiboot image the BIOS always runs; with no BIOS
      loaded the logo is never checked. */
  lemma NoRomBootsBios(b: BootInputs, crc32: seq<bv8> -> bv32)
    requires b.rom.None? && !b.multiboot
    ensures !SkipBios(b, crc32)
  {
  }

  lemma NoBiosNoLogoCheck(b: BootInputs, crc32: seq<bv8> -> bv32, crc32': seq<bv8> -> bv32)
    requires b.rom.Some? ==> b.pristineRomSize <= |b.rom.value|
    requires !b.biosLoaded
    ensures SkipBios(b, crc32) == SkipBios(b, crc32')
  {
  }

  /** A licensed cartridge under a real BIOS gets the boot animation
      unless a multiboot image or the skip option forces the skip. */
  lemma LicensedRomBootsBios(b: BootInputs, crc32: seq<bv8> -> bv32)
    requires b.rom.Some? && b.pristineRomSize <= |b.rom.value|
    requires !b.multiboot && !b.skipBiosOption && b.biosLoaded
    requires |b.rom.value| >= 0xA0 && crc32(LogoBytes(b.rom.value)) == LogoCrc32
    ensures !SkipBios(b, crc32)
  {
  }

  /** A ROM of at least 0xA0 bytes whose logo does not check out is never
      run through a real BIOS, whatever the options say. */
  lemma BadLogoSkips(b: BootInputs, crc32: seq<bv8> -> bv32)
    requires b.rom.Some? && 0xA0 <= b.pristineRomSize <= |b.rom.value|
    requires b.biosLoaded && crc32(LogoBytes(b.rom.value)) != LogoCrc32
    ensures SkipBios(b, crc32)
  {
  }

  /** Turning the skip option on never brings the BIOS back: the option
      only adds skips. */
  lemma SkipOptionOnlyAddsSkips(b: BootInputs, crc32: seq<bv8> -> bv32)
    requires b.rom.Some? ==> b.pristineRomSize <= |b.rom.value|
    ensures SkipBios(b, crc32) ==> SkipBios(b.(skipBiosOption := true), crc32)
    ensures b.rom.Some? ==> SkipBios(b.(skipBiosOption := true), crc32)
  {
  }
}
