/** The debugger's register-name resolver of the GBA core: reading and
    writing ARM registers by name (`r0`..`r15`, `ip`, `sp`, `lr`, `pc`,
    `cpsr`), and the register catalogue it is listed from. */
module Registers {
  import opened Wrappers
  import CString

  /** ARM register numbers of the stack pointer, link register and
      program counter. */
  const SP: nat := 13
  const LR: nat := 14
  const PC: nat := 15

  /** Bits of CPSR a debugger write may set: the flags and the control
      byte. */
  const CpsrWriteMask: bv32 := 0xF000_00FF

  /** The Thumb-state bit (T) of CPSR. */
  const ThumbBit: bv32 := 0x20

  /** The part of `struct ARMCore` the resolver touches. */
  datatype Cpu = Cpu(gprs: seq<bv32>, cpsr: bv32) {
    predicate Valid() {
      |gprs| == 16
    }

    predicate Thumb() {
      cpsr & ThumbBit != 0
    }
  }

  /** What a register name designates. */
  datatype Slot = Gpr(n: nat) | Cpsr

  /** The opaque CPU routine a successful access triggers: re-deriving the
      mode from CPSR (`_ARMReadCPSR`), or refilling the pipeline after the
      PC moved (`ThumbWritePC` / `ARMWritePC`). */
  datatype Effect = NoEffect | ResyncMode | RefreshPipeline(thumb: bool)

  datatype ReadResult = ReadFail | ReadOk(value: bv32, effect: Effect)

  /** `ok` is the function's return value; on failure `cpu` is the
      untouched input. */
  datatype WriteResult = WriteResult(ok: bool, cpu: Cpu, effect: Effect)

  /** The register index after an `r`/`R`: `strtoul(.., 10)` must not
      set errno, must give at most 15, and must stop at the end of the
      name. */
  function ParseIndex(rest: string): (r: Option<nat>)
    ensures r.Some? ==> r.value <= 15
  {
    var p := CString.StrToUL(rest);
    if p.erange || p.value > 15 || p.end != |rest| then None else Some(p.value)
  }

  /** The register names the read path resolves, by their first letter. */
  function ResolveRead(name: string): (r: Option<Slot>)
    ensures r.Some? && r.value.Gpr? ==> r.value.n < 16
  {
    if |name| == 0 then None
    else if name[0] == 'r' || name[0] == 'R' then
      match ParseIndex(name[1..])
      case Some(n) => Some(Gpr(n))
      case None => None
    else if name[0] == 'c' || name[0] == 'C' then
      if name == "cpsr" || name == "CPSR" then Some(Cpsr) else None
    else if name[0] == 'i' || name[0] == 'I' then
      if name == "ip" || name == "IP" then Some(Gpr(12)) else None
    else if name[0] == 's' || name[0] == 'S' then
      if name == "sp" || name == "SP" then Some(Gpr(SP)) else None
    else if name[0] == 'l' || name[0] == 'L' then
      if name == "lr" || name == "LR" then Some(Gpr(LR)) else None
    else if name[0] == 'p' || name[0] == 'P' then
      if name == "pc" || name == "PC" then Some(Gpr(PC)) else None
    else None
  }

  /** The register names the write path resolves. It differs from the
      read path in two places: only lower-case `cpsr` is accepted, and
      `pc`/`PC` is rewritten to the text "15" and parsed like a number. */
  function ResolveWrite(name: string): (r: Option<Slot>)
    ensures r.Some? && r.value.Gpr? ==> r.value.n < 16
  {
    if |name| == 0 then None
    else if name[0] == 'r' || name[0] == 'R' then
      match ParseIndex(name[1..])
      case Some(n) => Some(Gpr(n))
      case None => None
    else if name[0] == 'c' || name[0] == 'C' then
      if name == "cpsr" then Some(Cpsr) else None
    else if name[0] == 'i' || name[0] == 'I' then
      if name == "ip" || name == "IP" then Some(Gpr(12)) else None
    else if name[0] == 's' || name[0] == 'S' then
      if name == "sp" || name == "SP" then Some(Gpr(SP)) else None
    else if name[0] == 'l' || name[0] == 'L' then
      if name == "lr" || name == "LR" then Some(Gpr(LR)) else None
    else if name[0] == 'p' || name[0] == 'P' then
      if name == "pc" || name == "PC" then
        match ParseIndex("15")
        case Some(n) => Some(Gpr(n))
        case None => None
      else None
    else None
  }

  /** `_GBACoreReadRegister`. */
  function ReadRegister(cpu: Cpu, name: string): (r: ReadResult)
    requires cpu.Valid()
    ensures r.ReadOk? <==> ResolveRead(name).Some?
    ensures r.ReadOk? && ResolveRead(name).value.Gpr? ==>
              r.value == cpu.gprs[ResolveRead(name).value.n] && r.effect == NoEffect
    ensures r.ReadOk? && ResolveRead(name).value.Cpsr? ==>
              r.value == cpu.cpsr && r.effect == ResyncMode
  {
    match ResolveRead(name)
    case None => ReadFail
    case Some(Gpr(n)) => ReadOk(cpu.gprs[n], NoEffect)
    case Some(Cpsr) => ReadOk(cpu.cpsr, ResyncMode)
  }

  /** `_GBACoreWriteRegister`. */
  function WriteRegister(cpu: Cpu, name: string, value: bv32): (r: WriteResult)
    requires cpu.Valid()
    ensures r.cpu.Valid()
    ensures r.ok <==> ResolveWrite(name).Some?
    ensures !r.ok ==> r.cpu == cpu && r.effect == NoEffect
    ensures r.ok && ResolveWrite(name).value.Cpsr? ==>
              r.cpu == cpu.(cpsr := value & CpsrWriteMask) && r.effect == ResyncMode
    ensures r.ok && ResolveWrite(name).value.Gpr? ==>
              var n := ResolveWrite(name).value.n;
              r.cpu.cpsr == cpu.cpsr && r.cpu.gprs[n] == value &&
              (forall k :: 0 <= k < 16 && k != n ==> r.cpu.gprs[k] == cpu.gprs[k]) &&
              (r.effect == if n == PC then RefreshPipeline(cpu.Thumb()) else NoEffect)
  {
    match ResolveWrite(name)
    case None => WriteResult(false, cpu, NoEffect)
    case Some(Cpsr) => WriteResult(true, cpu.(cpsr := value & CpsrWriteMask), ResyncMode)
    case Some(Gpr(n)) =>
      var cpu' := cpu.(gprs := cpu.gprs[n := value]);
      WriteResult(true, cpu', if n == PC then RefreshPipeline(cpu.Thumb()) else NoEffect)
  }

  // ---------------------------------------------------------------------
  // Which names resolve

  /** `r`/`R` followed by a decimal number N names general register N
      exactly when N <= 15; a larger N, however many digits, is refused. */
  lemma NumberedName(prefix: char, digits: string)
    requires prefix == 'r' || prefix == 'R'
    requires |digits| > 0 && CString.AllDigits(digits)
    ensures var n := CString.DecimalValue(digits);
            ResolveRead([prefix] + digits) == (if n <= 15 then Some(Gpr(n)) else None) &&
            ResolveWrite([prefix] + digits) == ResolveRead([prefix] + digits)
  {
    var name := [prefix] + digits;
    assert name[1..] == digits;
    CString.StrToULOfDigits(digits);
  }

  /** A number followed by anything else is refused. */
  lemma TrailingTextRefused(prefix: char, digits: string, tail: string)
    requires prefix == 'r' || prefix == 'R'
    requires |digits| > 0 && CString.AllDigits(digits)
    requires |tail| > 0 && !CString.IsDigit(tail[0])
    ensures ResolveRead([prefix] + digits + tail) == None
    ensures ResolveWrite([prefix] + digits + tail) == None
  {
    var rest := digits + tail;
    assert ([prefix] + digits + tail)[1..] == rest;
    assert !CString.IsSpace(rest[0]);
    assert CString.SpaceRun(rest, 0) == 0;
    DigitRunStopsAt(rest, |digits|);
  }

  lemma {:induction false} DigitRunStopsAt(s: string, stop: nat)
    requires stop < |s| && !CString.IsDigit(s[stop])
    requires forall k :: 0 <= k < stop ==> CString.IsDigit(s[k])
    ensures CString.DigitRun(s, 0) == stop
  {
    DigitRunFrom(s, 0, stop);
  }

  lemma {:induction false} DigitRunFrom(s: string, i: nat, stop: nat)
    requires i <= stop < |s| && !CString.IsDigit(s[stop])
    requires forall k :: i <= k < stop ==> CString.IsDigit(s[k])
    ensures CString.DigitRun(s, i) == stop
    decreases stop - i
  {
    if i < stop {
      DigitRunFrom(s, i + 1, stop);
    }
  }

  /** The quirks `strtoul` brings along: an empty number is 0, so a bare
      `r` names r0. */
  lemma EmptyNumberIsZero()
    ensures ResolveRead("r") == Some(Gpr(0)) && ResolveRead("R") == Some(Gpr(0))
    ensures ResolveWrite("r") == Some(Gpr(0)) && ResolveWrite("R") == Some(Gpr(0))
  {
    assert "r"[1..] == "" && "R"[1..] == "";
  }

  /** Leading blanks before the number are skipped. */
  lemma LeadingBlankSkipped()
    ensures ResolveRead("r 7") == Some(Gpr(7))
  {
    assert CString.SpaceRun(" 7", 0) == 1;
    assert CString.DigitRun(" 7", 1) == 2;
    assert " 7"[1..2] == "7";
    assert CString.DecimalValue("7") == 7 by {
      assert "7"[..0] == "";
    }
    assert CString.StrToUL(" 7") == CString.ULongParse(7, 2, false);
    assert "r 7"[1..] == " 7";
  }

  /** A plus sign is skipped. */
  lemma PlusSignSkipped()
    ensures ResolveRead("r+3") == Some(Gpr(3))
  {
    assert CString.SpaceRun("+3", 0) == 0;
    assert CString.DigitRun("+3", 1) == 2;
    assert "+3"[1..2] == "3";
    assert CString.DecimalValue("3") == 3 by {
      assert "3"[..0] == "";
    }
    assert CString.StrToUL("+3") == CString.ULongParse(3, 2, false);
    assert "r+3"[1..] == "+3";
  }

  /** A minus sign negates modulo ULONG_MAX + 1: "-0" is still 0, while
      "-1" becomes ULONG_MAX and is refused. */
  lemma MinusSignWraps()
    ensures ResolveRead("r-0") == Some(Gpr(0))
    ensures ResolveRead("r-1") == None
  {
    assert CString.SpaceRun("-0", 0) == 0;
    assert CString.DigitRun("-0", 1) == 2;
    assert "-0"[1..2] == "0";
    assert CString.DecimalValue("0") == 0 by {
      assert "0"[..0] == "";
    }
    assert CString.StrToUL("-0") == CString.ULongParse(0, 2, false);
    assert "r-0"[1..] == "-0";
    assert CString.SpaceRun("-1", 0) == 0;
    assert CString.DigitRun("-1", 1) == 2;
    assert "-1"[1..2] == "1";
    assert "r-1"[1..] == "-1";
  }

  /** Blanks or a sign with no digits after them leave `end` at the start
      of the text, which is not its end, so the name is refused. */
  lemma NoDigitsAfterPrefixRefused()
    ensures ResolveRead("r ") == None && ResolveRead("r-") == None
  {
    assert CString.SpaceRun(" ", 0) == 1;
    assert "r "[1..] == " ";
    assert CString.SpaceRun("-", 0) == 0;
    assert "r-"[1..] == "-";
  }

  /** Whitespace between the prefix and any number is skipped: the name
      resolves exactly as it would without it. */
  lemma BlankBeforeNumber(prefix: char, c: char, d: string)
    requires prefix == 'r' || prefix == 'R'
    requires CString.IsSpace(c)
    requires |d| > 0 && CString.AllDigits(d)
    ensures ResolveRead([prefix, c] + d) == ResolveRead([prefix] + d)
    ensures ResolveWrite([prefix, c] + d) == ResolveWrite([prefix] + d)
  {
    assert ([prefix, c] + d)[1..] == [c] + d;
    assert ([prefix] + d)[1..] == d;
    CString.StrToULOfDigits(d);
    CString.BlankSkipped(c, d);
  }

  /** A sign between the prefix and a number: `+` keeps the number, `-`
      negates it modulo ULONG_MAX + 1, and the name resolves exactly when
      the result is at most 15. */
  lemma SignedNumber(prefix: char, sign: char, d: string)
    requires prefix == 'r' || prefix == 'R'
    requires sign == '+' || sign == '-'
    requires |d| > 0 && CString.AllDigits(d)
    ensures var n := CString.DecimalValue(d);
            var v := if sign == '-' then (CString.ULongMax + 1 - n) % (CString.ULongMax + 1) else n;
            ResolveRead([prefix, sign] + d) == (if n <= CString.ULongMax && v <= 15 then Some(Gpr(v)) else None) &&
            ResolveWrite([prefix, sign] + d) == ResolveRead([prefix, sign] + d)
  {
    assert ([prefix, sign] + d)[1..] == [sign] + d;
    CString.SignSkipped(sign, d);
  }

  /** The wrap-around reaches the register file: minus ULONG_MAX is 1, so
      `r-18446744073709551615` names r1. */
  lemma MinusMaxNamesR1(d: string)
    requires |d| > 0 && CString.AllDigits(d) && CString.DecimalValue(d) == CString.ULongMax
    ensures ResolveRead(['r', '-'] + d) == Some(Gpr(1))
    ensures ResolveWrite(['r', '-'] + d) == Some(Gpr(1))
  {
    assert (CString.ULongMax + 1 - CString.ULongMax) % (CString.ULongMax + 1) == 1;
    SignedNumber('r', '-', d);
  }

  /** The named aliases, in all-lower or all-upper case. */
  lemma AliasesResolve()
    ensures ResolveRead("ip") == Some(Gpr(12)) && ResolveRead("IP") == Some(Gpr(12))
    ensures ResolveRead("sp") == Some(Gpr(SP)) && ResolveRead("SP") == Some(Gpr(SP))
    ensures ResolveRead("lr") == Some(Gpr(LR)) && ResolveRead("LR") == Some(Gpr(LR))
    ensures ResolveRead("pc") == Some(Gpr(PC)) && ResolveRead("PC") == Some(Gpr(PC))
    ensures ResolveWrite("ip") == Some(Gpr(12)) && ResolveWrite("IP") == Some(Gpr(12))
    ensures ResolveWrite("sp") == Some(Gpr(SP)) && ResolveWrite("SP") == Some(Gpr(SP))
    ensures ResolveWrite("lr") == Some(Gpr(LR)) && ResolveWrite("LR") == Some(Gpr(LR))
    ensures ResolveWrite("pc") == Some(Gpr(PC)) && ResolveWrite("PC") == Some(Gpr(PC))
  {
    assert CString.StrToUL("15") == CString.ULongParse(15, 2, false) by {
      CString.StrToULOfDigits("15");
    }
  }

  /** CPSR is readable as `cpsr` or `CPSR` but writable only as `cpsr`. */
  lemma CpsrNames()
    ensures ResolveRead("cpsr") == Some(Cpsr) && ResolveRead("CPSR") == Some(Cpsr)
    ensures ResolveWrite("cpsr") == Some(Cpsr) && ResolveWrite("CPSR") == None
    ensures ResolveRead("Cpsr") == None && ResolveWrite("Cpsr") == None
  {
  }

  /** A name that does not start with one of the letters r, c, i, s, l, p
      (either case) never resolves. */
  lemma OtherLettersRefused(name: string)
    requires |name| > 0 && name[0] !in "rRcCiIsSlLpP"
    ensures ResolveRead(name) == None && ResolveWrite(name) == None
  {
  }

  /** Apart from the numbered `r`/`R` form, the only names either path
      accepts are the fixed spellings below; mixed case (`Sp`, `pC`),
      `spsr` and every other word are refused. */
  lemma FixedNamesOnly(name: string)
    requires |name| > 0 && name[0] != 'r' && name[0] != 'R'
    ensures ResolveRead(name).Some? <==>
              name in ["cpsr", "CPSR", "ip", "IP", "sp", "SP", "lr", "LR", "pc", "PC"]
    ensures ResolveWrite(name).Some? <==>
              name in ["cpsr", "ip", "IP", "sp", "SP", "lr", "LR", "pc", "PC"]
  {
    assert CString.StrToUL("15") == CString.ULongParse(15, 2, false) by {
      CString.StrToULOfDigits("15");
    }
  }

  /** Every name the write path accepts is read back from the same slot. */
  lemma WriteNamesAreReadNames(name: string)
    requires ResolveWrite(name).Some?
    ensures ResolveRead(name) == ResolveWrite(name)
  {
    assert CString.StrToUL("15") == CString.ULongParse(15, 2, false) by {
      CString.StrToULOfDigits("15");
    }
  }

  // ---------------------------------------------------------------------
  // Reading back what was written

  /** After a successful write, reading the same name gives the written
      value (masked, for CPSR); registers other than the target keep their
      values. The pipeline refresh a PC write triggers is the CPU's own
      routine and is not modelled. */
  lemma WriteThenRead(cpu: Cpu, name: string, value: bv32)
    requires cpu.Valid()
    requires WriteRegister(cpu, name, value).ok
    ensures var after := WriteRegister(cpu, name, value).cpu;
            ReadRegister(after, name).ReadOk? &&
            ReadRegister(after, name).value ==
              (if ResolveWrite(name) == Some(Cpsr) then value & CpsrWriteMask else value)
  {
    WriteNamesAreReadNames(name);
  }

  /** A refused write changes nothing, and a refused read name is refused
      by the write path too. */
  lemma RefusedNamesChangeNothing(cpu: Cpu, name: string, value: bv32)
    requires cpu.Valid()
    requires ResolveRead(name) == None
    ensures ReadRegister(cpu, name) == ReadFail
    ensures WriteRegister(cpu, name, value) == WriteResult(false, cpu, NoEffect)
  {
    if ResolveWrite(name).Some? {
      WriteNamesAreReadNames(name);
    }
  }

  // ---------------------------------------------------------------------
  // The register catalogue

  datatype RegisterKind = GprKind | FlagsKind

  /** One row of `_GBARegisters`: name, aliases, width in bytes, the mask
      of writable bits and the kind. */
  datatype RegisterInfo = RegisterInfo(name: string, aliases: seq<string>, width: nat, mask: bv32, kind: RegisterKind)

  function GprInfo(name: string, aliases: seq<string>): RegisterInfo {
    RegisterInfo(name, aliases, 4, 0xFFFF_FFFF, GprKind)
  }

  function FlagsInfo(name: string): RegisterInfo {
    RegisterInfo(name, [], 4, CpsrWriteMask, FlagsKind)
  }

  /** `_GBACoreListRegisters`: the register list the core reports to
      debuggers. Sixteen general registers come first, four bytes wide
      and fully writable; only r12..r15 carry aliases. Then come CPSR and
      the banked SPSRs, which take the flags mask. */
  function RegisterTable(): (rows: seq<RegisterInfo>)
    ensures |rows| == 23
    ensures forall k :: 0 <= k < 16 ==>
              rows[k].kind == GprKind && rows[k].width == 4 && rows[k].mask == 0xFFFF_FFFF
    ensures forall k :: 16 <= k < |rows| ==>
              rows[k].kind == FlagsKind && rows[k].width == 4 && rows[k].mask == CpsrWriteMask && rows[k].aliases == []
    ensures forall k :: 0 <= k < |rows| && rows[k].aliases != [] ==> 12 <= k < 16
  {
    [
    GprInfo("r0", []), GprInfo("r1", []), GprInfo("r2", []), GprInfo("r3", []),
    GprInfo("r4", []), GprInfo("r5", []), GprInfo("r6", []), GprInfo("r7", []),
    GprInfo("r8", []), GprInfo("r9", []), GprInfo("r10", []), GprInfo("r11", []),
    GprInfo("r12", ["ip"]), GprInfo("sp", ["r13"]), GprInfo("lr", ["r14"]), GprInfo("pc", ["r15"]),
    FlagsInfo("cpsr"), FlagsInfo("spsr"), FlagsInfo("spsr_irq"), FlagsInfo("spsr_fiq"),
    FlagsInfo("spsr_svc"), FlagsInfo("spsr_abt"), FlagsInfo("spsr_und")
    ]
  }

  /** Row k of the catalogue is named `r` followed by the numeral of k. */
  lemma NumberedRow(k: nat, numeral: string)
    requires k < 16
    requires |numeral| > 0 && CString.AllDigits(numeral) && CString.DecimalValue(numeral) == k
    ensures ResolveRead("r" + numeral) == Some(Gpr(k))
    ensures ResolveWrite("r" + numeral) == Some(Gpr(k))
  {
    NumberedName('r', numeral);
  }

  /** The catalogue and the resolver agree on the general registers: the
      k-th listed register reads and writes slot k. */
  lemma GprRowsResolve(k: nat)
    requires k < 16
    ensures ResolveRead(RegisterTable()[k].name) == Some(Gpr(k))
    ensures ResolveWrite(RegisterTable()[k].name) == Some(Gpr(k))
  {
    if k < 10 {
      SingleDigitRow(k);
    } else if k < 13 {
      TwoDigitRow(k);
    } else {
      AliasesResolve();
    }
  }

  lemma SingleDigitRow(k: nat)
    requires k < 10
    ensures ResolveRead(RegisterTable()[k].name) == Some(Gpr(k))
    ensures ResolveWrite(RegisterTable()[k].name) == Some(Gpr(k))
  {
    var numeral := [('0' as int + k) as char];
    assert numeral[..0] == "";
    assert RegisterTable()[k].name == "r" + numeral;
    NumberedRow(k, numeral);
  }

  lemma TwoDigitRow(k: nat)
    requires 10 <= k < 16
    ensures ResolveRead("r" + ['1', ('0' as int + k - 10) as char]) == Some(Gpr(k))
    ensures ResolveWrite("r" + ['1', ('0' as int + k - 10) as char]) == Some(Gpr(k))
    ensures k < 13 ==> RegisterTable()[k].name == "r" + ['1', ('0' as int + k - 10) as char]
  {
    var numeral := ['1', ('0' as int + k - 10) as char];
    assert CString.DecimalValue("1") == 1 by {
      assert "1"[..0] == "";
    }
    assert numeral[..1] == "1";
    assert CString.DecimalValue(numeral) == 10 * CString.DecimalValue(numeral[..1]) + CString.DigitValue(numeral[1]);
    NumberedRow(k, numeral);
  }

  /** Each alias in the catalogue reads and writes its row's slot. */
  lemma AliasRowsResolve(k: nat, a: string)
    requires k < 16 && a in RegisterTable()[k].aliases
    ensures ResolveRead(a) == Some(Gpr(k)) && ResolveWrite(a) == Some(Gpr(k))
  {
    if k == 12 {
      AliasesResolve();
    } else {
      assert 13 <= k;
      TwoDigitRow(k);
    }
  }

  /** The catalogue's CPSR row carries the mask a write applies; the SPSR
      rows are listed but neither path resolves them. */
  lemma FlagRowsResolve(k: nat)
    requires 16 <= k < |RegisterTable()|
    ensures k == 16 ==> ResolveRead(RegisterTable()[k].name) == Some(Cpsr) &&
                        ResolveWrite(RegisterTable()[k].name) == Some(Cpsr)
    ensures RegisterTable()[k].mask == CpsrWriteMask
    ensures k > 16 ==> ResolveRead(RegisterTable()[k].name) == None &&
                       ResolveWrite(RegisterTable()[k].name) == None
  {
  }
}
