# GBA core decision logic, modelled in Dafny

This project models the self-contained decision logic of mGBA's Game Boy
Advance core (`src/gba/core.c`). That file implements the emulator's
generic core interface. Most of it hands work to the CPU, bus, renderer
and save-data code, which is not part of this model. These pieces stand
on their own, and this project states and proves their behaviour:

- **Register-name resolver** (`registers.dfy`). Debugger names such as
  `r0`..`r15`, `ip`, `sp`, `lr`, `pc` and `cpsr` are mapped to ARM
  register slots, for reading and for writing. The number after `r` is
  parsed as C `strtoul` in base 10 parses it (`cstring.dfy`). The
  register catalogue the core lists to debuggers is modelled too.
- **Keypad word** (`keypad.dfy`). Set, OR-in, clear-mask and get on the
  32-bit `keysActive`.
- **Memory-block catalogue** (`memory_blocks.dfy`):
  - the seven static tables, chosen by save-data type;
  - ROM rows resized to the loaded ROM;
  - the per-type cache, which loading a ROM and resetting invalidate;
  - the region lookup, including the FLASH1M case and the `switch`
    fall-through.
- **Configuration effects** (`core_config.dfy`). Mute, volume,
  frameskip, `idleOptimization` and `allowOpposingDirections`, through
  both `loadConfig` and `reloadConfigOption`, and the GL renderer's
  scale as the `videoScale` and `hwaccelVideo` reloads set it.
- **Extra save-state framing** (`extra_state.dfy`). A 4-byte type tag is
  put in front of the renderer's and the serial driver's payloads, and
  checked when they are loaded.
- **Smaller pieces**. The layer and channel switches (`switches.dfy`),
  the BIOS-skip decision in `reset` (`boot.dfy`) and the reported video
  size (`video_size.dfy`).

The model is functional. Core fields are immutable records, the static
tables are sequences, and every operation is a pure function or a short
method. Code outside `src/gba/core.c` becomes a parameter:

- the renderer's and driver's `saveState`/`loadState`/ids;
- `GBASavedataSize`;
- the CRC-32 routine;
- the config store's integer and boolean readers.

Calls into the CPU (`_ARMReadCPSR`, `ARMWritePC`/`ThumbWritePC`) are
returned as an `Effect` tag rather than performed.

Assumptions about code outside `src/gba/core.c`:

- **`GBA_*` constants.** `GBA_REGION_*`, `GBA_BASE_*` and `GBA_SIZE_*`
  are symbolic fields of a `Platform` record. Only the region ids are
  required to be distinct, as the `case` labels of a C `switch` must be.
- **The `-2` cache tag.** It is the constructor `Invalidated`, because
  no save type uses that code; the codes of the other save types are a
  subset type that leaves out -2.
- **`strtoul`.** It behaves as glibc's does on an LP64 host:
  - `unsigned long` is 64 bits;
  - a missing number gives 0 with `end` at the start of the text and
    does not set `errno`;
  - a magnitude above ULONG_MAX sets ERANGE.
- **Register names** are C strings, so they hold no NUL character.
- **Build options.** The core is taken to be built with threading and
  without `MINIMAL_CORE`. The GL renderer's scale is modelled, as under
  `BUILD_GLES3`.
- **Layer ids** `GBA_LAYER_BG0`..`GBA_LAYER_OBJWIN` are 0..7 in table
  order. The renderer's `disableBG[id]` indexing needs this for the four
  backgrounds.

All files are checked together, with Dafny 4.11:

    dafny verify *.dfy

## Model

| member | source | states |
|---|---|---|
| `CString.StrToUL` | src/gba/core.c:1245-1246 | the parsed value never exceeds ULONG_MAX; `end` is 0 or just past a digit; ERANGE implies the saturated value (the blank, sign and overflow cases are pinned down exactly by `BlankSkipped`, `SignSkipped` and `StrToULOfDigits`) |
| `CString.StrToULOfDigits` | src/gba/core.c:1245-1246 | on a non-empty digit string, `strtoul` consumes all of it; ERANGE is set exactly when the decimal value exceeds ULONG_MAX; otherwise the value is the decimal value |
| `CString.DigitRunOfDigits` | src/gba/core.c:1245 | the digit run that starts a string of digits ends at the end of the string |
| `CString.BlankSkipped` | src/gba/core.c:1245 | a leading blank changes nothing in the parse except that `end`, when not 0, moves one place further |
| `CString.SignSkipped` | src/gba/core.c:1245-1246 | after `+` a digit string parses as without the sign; after `-` its value is negated modulo 2^64 unless it overflows; `end` is past the digits |
| `CString.SignAlone` | src/gba/core.c:1245 | a sign with no digits after it parses as 0 with `end` at the start of the text |
| `CString.ToLower` | src/gba/core.c:370-374 | the result is never an upper-case letter; an upper-case letter maps to the lower-case letter at the same offset, and every other character to itself |
| `CString.MatchesLowerWord` | src/gba/core.c:370-374 | text equals a lower-case word ignoring case exactly when it has the word's length and each character is the word's character or its upper-case form |
| `Registers.ParseIndex` | src/gba/core.c:1242-1247 | an index after `r`/`R` is accepted only when it is at most 15 |
| `Registers.ResolveRead` | src/gba/core.c:1197-1241 | every general-register slot the read path resolves is below 16 |
| `Registers.ResolveWrite` | src/gba/core.c:1256-1306 | every general-register slot the write path resolves is below 16 (that `pc` lands on r15 is `AliasesResolve`) |
| `Registers.ReadRegister` | src/gba/core.c:1194-1251 | a read succeeds exactly when the name resolves; it yields that general register, or CPSR with a mode resync |
| `Registers.WriteRegister` | src/gba/core.c:1253-1317 | a write succeeds exactly when the name resolves; a refused write changes nothing; CPSR receives `value & 0xF00000FF`; a register write changes only the target register; a write to r15 asks for a pipeline refresh in the current Thumb/ARM state |
| `Registers.NumberedName` | src/gba/core.c:1198-1201 | `r`/`R` followed by a decimal number N names general register N exactly when N <= 15, on both paths |
| `Registers.TrailingTextRefused` | src/gba/core.c:1246 | a number followed by any non-digit text is refused on both paths |
| `Registers.DigitRunFrom` | src/gba/core.c:1245 | the digit run stops at the first non-digit |
| `Registers.EmptyNumberIsZero` | src/gba/core.c:1243-1250 | a bare `r` or `R` names r0, since `strtoul` of empty text is 0 and ends at the terminator |
| `Registers.LeadingBlankSkipped` | src/gba/core.c:1245 | `r 7` names r7 |
| `Registers.PlusSignSkipped` | src/gba/core.c:1245 | `r+3` names r3 |
| `Registers.BlankBeforeNumber` | src/gba/core.c:1245 | a blank between `r` and a non-empty digit string never changes what the name resolves to, on either path (with nothing after the blank, `r ` is refused while `r` names r0) |
| `Registers.SignedNumber` | src/gba/core.c:1245-1247 | `r+N` names rN, and `r-N` names the register whose number is N negated modulo 2^64, when that is at most 15 and N does not overflow; both paths agree |
| `Registers.MinusMaxNamesR1` | src/gba/core.c:1245-1247 | `r-18446744073709551615` names r1, since the negation wraps |
| `Registers.MinusSignWraps` | src/gba/core.c:1245-1246 | `r-0` names r0, while `r-1` wraps to ULONG_MAX and is refused |
| `Registers.NoDigitsAfterPrefixRefused` | src/gba/core.c:1245-1246 | `r ` and `r-` are refused, since the parse ends at the start of the text |
| `Registers.AliasesResolve` | src/gba/core.c:1210-1241 | `ip`/`IP` name r12, `sp`/`SP` r13, `lr`/`LR` r14 and `pc`/`PC` r15, on both paths |
| `Registers.CpsrNames` | src/gba/core.c:1261-1268 | CPSR is read as `cpsr` or `CPSR` but written only as `cpsr`; `Cpsr` is refused |
| `Registers.OtherLettersRefused` | src/gba/core.c:1239-1240 | a name starting with any letter other than r, c, i, s, l, p (either case) is refused |
| `Registers.FixedNamesOnly` | src/gba/core.c:1202-1241 | apart from the numbered form, exactly the ten fixed spellings are readable and nine are writable; mixed case and `spsr` are refused |
| `Registers.WriteNamesAreReadNames` | src/gba/core.c:1256-1306 | every name the write path accepts is read from the same slot |
| `Registers.WriteThenRead` | src/gba/core.c:1308-1316 | after a successful write, reading the same name gives the written value, masked for CPSR |
| `Registers.RefusedNamesChangeNothing` | src/gba/core.c:1239-1240 | a name the read path refuses fails both paths and leaves the CPU unchanged |
| `Registers.RegisterTable` | src/gba/core.c:168-191 | 23 rows: rows 0..15 are 32-bit general registers with a full write mask, the rest are flag registers with the CPSR write mask, and only rows 12..15 carry aliases |
| `Registers.NumberedRow` | src/gba/core.c:168-184 | `r` followed by the numeral of k resolves to slot k on both paths |
| `Registers.SingleDigitRow` | src/gba/core.c:169-178 | catalogue rows r0..r9 resolve to their own slot |
| `Registers.TwoDigitRow` | src/gba/core.c:179-184 | `r10`..`r15` resolve to slots 10..15, and rows 10..12 carry those names |
| `Registers.GprRowsResolve` | src/gba/core.c:168-184 | the k-th general register in the register catalogue is read and written at slot k |
| `Registers.AliasRowsResolve` | src/gba/core.c:180-184 | every alias in the catalogue (`ip`, `r13`, `r14`, `r15`) resolves to its row's slot |
| `Registers.FlagRowsResolve` | src/gba/core.c:185-191 | the catalogue's CPSR row resolves and carries the write mask; the SPSR rows are listed but never resolve |
| `Keypad.SetKeys` | src/gba/core.c:956-960 | reading the keys after setting them gives exactly the set word |
| `Keypad.AddKeys` | src/gba/core.c:962-966 | every added key is held afterwards, and every other key keeps its state |
| `Keypad.ClearKeys` | src/gba/core.c:968-972 | every cleared key is released afterwards, and every other key keeps its state |
| `Keypad.GetKeys` | src/gba/core.c:974-977 | the reported word is the whole keypad state: setting it back rebuilds the same keypad |
| `Keypad.Step` | src/gba/core.c:956-972 | after one call the word holds exactly the set keys, all added keys, or none of the cleared keys |
| `Keypad.Run` | src/gba/core.c:956-972 | an empty run changes nothing, and after a run the word shows the effect of its last call |
| `Keypad.GetAfterSet` | src/gba/core.c:956-977 | getting after setting returns the set word |
| `Keypad.AddIsOr` | src/gba/core.c:962-977 | adding ORs the keys into the reported word |
| `Keypad.ClearIsAndNot` | src/gba/core.c:968-977 | clearing masks the keys out of the reported word |
| `Keypad.AddIdempotent` | src/gba/core.c:962-966 | adding the same keys twice equals adding them once |
| `Keypad.ClearIdempotent` | src/gba/core.c:968-972 | clearing the same keys twice equals clearing them once |
| `Keypad.NoOpCalls` | src/gba/core.c:962-972 | adding held keys or clearing released keys leaves the word unchanged |
| `Keypad.StepKeepsOthers` | src/gba/core.c:962-972 | an add or clear leaves the keys outside its mask unchanged |
| `Keypad.UntouchedKeysKept` | src/gba/core.c:962-972 | over any run of adds and clears, keys that no mask mentions keep their state |
| `Keypad.SetForgetsHistory` | src/gba/core.c:956-960 | only the calls after the last set decide the key word |
| `Keypad.ClearAfterAdd` | src/gba/core.c:962-972 | clearing after adding the same keys equals only clearing them |
| `Keypad.AddAfterClear` | src/gba/core.c:962-972 | adding after clearing the same keys equals only adding them |
| `MemoryBlocks.StaticTable` | src/gba/core.c:60-162 | each save type's table has twelve rows when it carries save memory and eleven otherwise, and starts with the eleven common rows |
| `MemoryBlocks.Catalogue` | src/gba/core.c:1134-1139 | the catalogue has the static table's length (12 or 11 rows); rows 8-10 are ROM0, ROM1 and ROM2 with the ROM size; every other row is not a ROM region and is the static row, untouched |
| `MemoryBlocks.StaticRomRows` | src/gba/core.c:60-162 | in every static table, rows 8-10 are ROM0, ROM1 and ROM2, and they are the only rows naming a ROM region |
| `MemoryBlocks.BuildCatalogue` | src/gba/core.c:1104-1139 | the copy-and-patch loop produces exactly the catalogue |
| `MemoryBlocks.ListMemoryBlocks` | src/gba/core.c:1099-1146 | the call leaves the cache as `ListBlocks` describes and returns the cached rows |
| `MemoryBlocks.ListBlocks` | src/gba/core.c:1103-1145 | afterwards the cache tag is the save type; an up-to-date cache is returned unchanged; otherwise the rows are rebuilt |
| `MemoryBlocks.Invalidate` | src/gba/core.c:784 | reset sets the tag to the invalid value and keeps the rows |
| `MemoryBlocks.LoadRom` | src/gba/core.c:609-630 | loading an ordinary ROM file invalidates the cache; ELF and multiboot images leave it alone |
| `MemoryBlocks.GetMemoryBlock` | src/gba/core.c:1148-1186 | NULL exactly for ids outside the region set and for MMIO; ROM0/1/2 report the ROM size; SRAM reports the FLASH1M size and bank only for FLASH1M, and otherwise the same as SRAM_MIRROR |
| `MemoryBlocks.RowCount` | src/gba/core.c:1103-1133 | 12 rows for SRAM, SRAM512, FLASH512, FLASH1M, EEPROM and EEPROM512, and 11 otherwise |
| `MemoryBlocks.RepeatCallUsesCache` | src/gba/core.c:1103 | a repeat call with the same save type does not rebuild, even if the ROM size changed |
| `MemoryBlocks.InvalidateForcesRebuild` | src/gba/core.c:628 | after loading a ROM file or a reset, the next call rebuilds from the current type and ROM size |
| `MemoryBlocks.NewSaveTypeRebuilds` | src/gba/core.c:1103-1141 | a change of save type rebuilds the rows |
| `MemoryBlocks.ListAndGetAgree` | src/gba/core.c:1148-1186 | every listed region except the virtual row and MMIO is served by the lookup with the listed size; MMIO is listed but not served |
| `MemoryBlocks.SramFallsThrough` | src/gba/core.c:1177-1185 | outside FLASH1M, looking up SRAM is the same as looking up SRAM_MIRROR |
| `CoreConfig.GetValue` | src/gba/core.c:368 | a value is found exactly when the key is present, and it is the stored text |
| `CoreConfig.GetIntValue` | src/gba/core.c:425 | an integer is found exactly when the key is present with an integer reading, and it is that reading |
| `CoreConfig.GetBoolValue` | src/gba/core.c:383 | a boolean is found exactly when the key is present with a boolean reading, and it is that reading |
| `CoreConfig.CopyValue` | src/gba/core.c:385-394 | the key is copied when the source has it, and every other key is kept |
| `CoreConfig.CopyAll` | src/gba/core.c:385-394 | every listed key present in the source is copied; all other keys keep their values |
| `CoreConfig.ParseIdleOptimization` | src/gba/core.c:368-381 | `ignore`, `remove` and `detect` are matched ignoring case; `detect` becomes `remove` when an idle loop is known; other text keeps the setting |
| `CoreConfig.IdleWordsExclusive` | src/gba/core.c:370-374 | no text matches two of the three idle-loop words |
| `CoreConfig.LoadConfig` | src/gba/core.c:354-394 | masterVolume is 0 if muted and the volume otherwise; frameskip is propagated; the idle setting is kept when unset and otherwise parsed from the text against the known idle loop; the known idle loop and the GL renderer are untouched; opposing directions are taken when configured; the listed keys are copied, and every other key is kept with no key added |
| `CoreConfig.ReloadConfigOption` | src/gba/core.c:396-482 | a reload with no option name re-establishes the volume invariant and frameskip; `mute` adopts a configured flag and then sets masterVolume to 0 or the volume, and otherwise changes nothing; `volume` adopts a configured volume and passes it to masterVolume only when not muted; `frameskip` adopts a configured value into both the option and the video frameskip; these three leave the configuration and the GL renderer alone; `allowOpposingDirections` copies the key and changes only that flag, to the configured value or the old one; `videoScale` copies the key and, with a GL texture attached and hardware acceleration on, takes the configured scale; `hwaccelVideo` sets the scale to the configured `videoScale` when attached and on, and to 1 otherwise; unrelated option names change nothing |
| `CoreConfig.HwaccelOffRestoresNativeSize` | src/gba/core.c:458-470 | reloading `hwaccelVideo` while it is off or no GL texture is attached brings the reported size back to 240x160 |
| `CoreConfig.VideoScaleReachesVideoSize` | src/gba/core.c:445-457 | with a texture attached and acceleration on, a `videoScale` reload makes the reported size 240v x 160v for the configured scale v |
| `CoreConfig.ReloadKeepsAudioConsistent` | src/gba/core.c:403-428 | every reload keeps masterVolume equal to 0 if muted and to the volume otherwise |
| `CoreConfig.VolumeWhileMuted` | src/gba/core.c:414-428 | a volume change while muted is stored, and masterVolume stays 0 until unmuting brings it in |
| `CoreConfig.FrameskipPropagates` | src/gba/core.c:430-434 | a frameskip reload that finds a value sets both the option and the video frameskip; otherwise nothing changes |
| `CoreConfig.IdleOptimizationIgnoresCase` | src/gba/core.c:368-381 | `IGNORE`, `Remove` and `DeTeCt` are recognised; `detect` with a known loop gives remove; `detected` is ignored |
| `CoreConfig.ReloadAllAfterLoad` | src/gba/core.c:403-411 | reloading with no option name right after a load changes nothing |
| `ExtraState.Store32` | src/gba/core.c:924 | a stored tag takes exactly four bytes |
| `ExtraState.LoadStore` | src/gba/core.c:886 | loading a stored tag gives the tag back, whatever follows it |
| `ExtraState.StoreLoad` | src/gba/core.c:886 | storing a loaded tag gives back the four bytes |
| `ExtraState.StoreInjective` | src/gba/core.c:924 | distinct tags are stored as distinct prefixes |
| `ExtraState.Frame` | src/gba/core.c:918-926 | a saved item is the payload plus four bytes; its first four bytes load as the type tag and the rest is the payload |
| `ExtraState.LoadItem` | src/gba/core.c:883-895 | the payload is delivered exactly when the item is longer than four bytes and its tag matches; `ok` then becomes `loadState(payload) && ok`; otherwise `ok` falls only for a short item that has data |
| `ExtraState.SaveItem` | src/gba/core.c:917-926 | a non-empty, non-NULL buffer is stored framed under its slot, replacing the slot's item; otherwise nothing changes; other slots are kept |
| `ExtraState.SaveExtraState` | src/gba/core.c:913-954 | each slot ends up holding its component's payload framed under its type tag when the component saved a non-empty buffer, and otherwise exactly what it held before, including absence |
| `ExtraState.LoadExtraState` | src/gba/core.c:879-911 | each component is handed the bytes after the tag exactly when its slot holds an item longer than four bytes carrying its tag; a missing or unusable serial driver is handed nothing; a short item with data in a slot that is read makes the call fail |
| `ExtraState.FrameRoundTrip` | src/gba/core.c:884-891 | loading a saved item under the same component hands back exactly the payload, and `ok` becomes what `loadState` reports |
| `ExtraState.OtherTagSkipped` | src/gba/core.c:887 | under a different type tag the item is skipped and `ok` is unchanged |
| `ExtraState.ShortItemFails` | src/gba/core.c:892-894 | a renderer item with data but at most four bytes makes the whole load fail, and no payload is delivered |
| `ExtraState.SaveThenLoad` | src/gba/core.c:879-954 | save followed by load with the same components gives each component exactly its payload; the call succeeds exactly when every `loadState` succeeds |
| `ExtraState.SavedItemsAreLong` | src/gba/core.c:918-920 | the save path never writes an item the load path would reject as short |
| `Switches.EnableVideoLayer` | src/gba/core.c:1500-1524 | the addressed layer's switch becomes `!enable`, every other switch is kept, and an unknown id changes nothing |
| `Switches.EnableAudioChannel` | src/gba/core.c:1526-1544 | the addressed channel's switch becomes `!enable`, every other switch is kept, and an unknown id changes nothing |
| `Switches.VideoLayers` | src/gba/core.c:40-49 | eight layers whose ids are their positions 0..7, none with a visible type |
| `Switches.AudioChannels` | src/gba/core.c:51-58 | six channels whose ids are their positions 0..5; the four PSG channels carry a visible type and the two FIFO channels have none |
| `Switches.ListedIdsHaveSwitches` | src/gba/core.c:40-57 | every listed layer and channel id has a switch, and disabling then re-enabling an enabled one restores the switches |
| `Boot.LogoBytes` | src/gba/core.c:834 | the logo check covers 0x9C bytes |
| `Boot.SkipBios` | src/gba/core.c:831-843 | the BIOS is skipped exactly for a multiboot image, for the skip option with a ROM present, or when a BIOS would run a ROM of at least 0xA0 bytes whose logo CRC is not 0xD0BEB55E |
| `Boot.NoRomBootsBios` | src/gba/core.c:831-843 | with no ROM and no multiboot image, the BIOS always runs |
| `Boot.LicensedRomBootsBios` | src/gba/core.c:831-839 | a ROM whose logo checksum matches, under a real BIOS and with no forcing, boots through the BIOS |
| `Boot.BadLogoSkips` | src/gba/core.c:832-839 | a ROM of at least 0xA0 bytes with a wrong logo checksum under a real BIOS is always skipped |
| `Boot.SkipOptionOnlyAddsSkips` | src/gba/core.c:831 | turning the skip option on never turns a skip into a boot, and with a ROM present it always skips |
| `Boot.NoBiosNoLogoCheck` | src/gba/core.c:833-838 | without a BIOS loaded, the decision does not depend on the checksum |
| `VideoSize.ToUnsigned` | src/gba/core.c:516-517 | conversion to `unsigned` stays below 2^32 and keeps values already in range |
| `VideoSize.VideoScale` | src/gba/core.c:520-530 | the scale is 1 when no GL texture is attached |
| `VideoSize.CurrentVideoSize` | src/gba/core.c:505-518 | with no GL texture attached, the size is 240x160 |
| `VideoSize.SizeIsScaledBase` | src/gba/core.c:505-530 | the reported size is the base size times the reported scale, modulo 2^32; without overflow it keeps the 3:2 ratio |

## Left out

- Registers.WriteThenRead: after a write to r15, `ARMWritePC`/`ThumbWritePC` realign the PC and refill the pipeline. That code is not part of this model, so the lemma speaks of the register file before the refresh. `WriteRegister` reports the refresh only as an `Effect`.
- Registers.ReadRegister: the `_ARMReadCPSR` call after reading or writing CPSR is reported only as an `Effect`. The mode bank switch it performs is CPU code outside this model.
- Keypad: every call is followed by `GBATestKeypadIRQ`. That routine lives in the keypad/IRQ code, which is not part of this model.
- CString.StrToUL: models glibc on a 64-bit `unsigned long`. On a host with a 32-bit `long`, the wrap for negative numbers and the ERANGE bound change.
- MemoryBlocks.GetMemoryBlock: returns which buffer is designated, not its address. `GBASavedataSize` is taken as a field of the memory state.
- ExtraState.LoadItem: an item with a negative `size`, or with NULL data and a non-zero size, is not modelled. The save path produces neither for payloads below 2^31 - 4 bytes.
- ExtraState.SaveThenLoad: the item size `size + 4` is stored in a signed 32-bit field. For a payload of 2^31 - 4 bytes or more it overflows, and the model does not follow that path; the round trip is stated for payloads of any length.
- VideoSize.CurrentVideoSize: `240 * scale` and `160 * scale` are computed as signed `int`, where overflow is undefined behaviour. The model takes the two's-complement wrap that the conversion to `unsigned` would give; for scales whose products fit in an `int` this is exact.
- ExtraState: the serial driver is present or absent as a whole. The model has no driver that has `driverId` but lacks only one of `saveState`/`loadState`.
- CoreConfig.ReloadConfigOption: `threadedVideo.flushScanline` is left out, and so is the renderer re-association done by the `hwaccelVideo` reload. Both rewire the renderer and the thread proxy, which are not part of this model. When the `videoScale` reload cannot read an integer, the source passes an uninitialised `int` to `GBAVideoGLRendererSetScale`; the model keeps the old scale there. The model also takes `GBAVideoGLRendererSetScale` to do nothing but store the scale.
- CoreConfig.LoadConfig: the override table (`mCoreConfigGetOverridesConst`) is not modelled, because the overrides code is not part of this model. The config store's section layering is also left out; the model sees one flat map.
- Init and deinit, memory mapping, renderer, GL, thread-proxy and video-log wiring, and the video-log player: all delegate to code that is not part of this model.
- ROM, BIOS, save, patch, ELF and symbol loading through `VFile`: only `loadROM`'s effect on the block cache is modelled.
- Reset: only the block-cache invalidation and the BIOS-skip decision are modelled. Renderer selection, the GB Player and VBA-compatibility flags, overrides and the BIOS file search are left out.
- MD5, SHA-1 and CRC-32: foreign hash routines. CRC-32 is a parameter of `Boot.SkipBios`.
- CPU execution (`runFrame`, `runLoop`, `step`), bus and raw memory access, peripherals, cheats and the debugger platform: foreign callbacks outside this model.
