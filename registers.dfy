/** The application register bank of the pulse generator: addresses, bit
    fields, per-register wire types and the register contents themselves
    (Firmware/MultiPwm/app_ios_and_regs.h and app_ios_and_regs.c). */
module Registers {
  import opened Bits

  // ----- address range of the bank --------------------------------------

  const AddrMin: uint8 := 0x20
  const AddrMax: uint8 := 0x4A
  /** Number of registers in the bank, as handed to the core at start-up. */
  const BankSize: nat := AddrMax - AddrMin + 1
  /** Address of EXEC_STATE, the register whose changes are sent as events. */
  const ExecStateAddr: uint8 := 73

  // ----- bit fields -------------------------------------------------------

  /** CHn_MODE: bit 0 selects COUNT (0) or INFINITE (1). */
  const ChModeMask: Byte := Bit(0)
  const ChModeCount: Byte := Zero
  const ChModeInfinite: Byte := Bit(0)
  /** TRGn_MODE: bit 0 selects START (0) or START_AND_STOP (1), bit 3 inverts the polarity. */
  const TrgModeMask: Byte := Bit(0)
  const TrgModeStart: Byte := Zero
  const TrgModeStartAndStop: Byte := Bit(0)
  const TrgPolarityBit: Byte := Bit(3)
  /** TRGALL_MODE: bits 0..1 select the action, bit 3 inverts the polarity. */
  const AllModeMask: Byte := Or(Bit(0), Bit(1))
  const AllModeTrigAll: Byte := Zero
  const AllModeTrigAllAndStop: Byte := Bit(0)
  const AllModeEnable: Byte := Bit(1)
  const AllModeEnableAndStop: Byte := Or(Bit(0), Bit(1))
  const AllPolarityBit: Byte := Bit(3)
  /** TRIG_STATE: bit 4 mirrors the TRIG_ALL input. */
  const TrigAllLevelBit: Byte := Bit(4)
  /** EVNT_ENABLE: bit 0 enables the EXEC_STATE event. */
  const EventExecBit: Byte := Bit(0)

  /** TRGn_MODE: the mode field is START_AND_STOP iff bit 0 is set. */
  lemma TrgModeCases(x: Byte)
    ensures And(x, TrgModeMask) == TrgModeStartAndStop <==> Has(x, 0)
    ensures And(x, TrgModeMask) == TrgModeStart <==> !Has(x, 0)
  {
    MaskBit(x, 0);
    assert Bit(0)[0] && !Zero[0];
  }

  /** TRGALL_MODE: the two mode bits select one of the four modes. */
  lemma AllModeCases(x: Byte)
    ensures And(x, AllModeMask) == AllModeTrigAll <==> !Has(x, 0) && !Has(x, 1)
    ensures And(x, AllModeMask) == AllModeTrigAllAndStop <==> Has(x, 0) && !Has(x, 1)
    ensures And(x, AllModeMask) == AllModeEnable <==> !Has(x, 0) && Has(x, 1)
    ensures And(x, AllModeMask) == AllModeEnableAndStop <==> Has(x, 0) && Has(x, 1)
  {
    var m := And(x, AllModeMask);
    assert m[0] == Has(x, 0) && m[1] == Has(x, 1);
    assert Zero[0] == false && Zero[1] == false;
    assert Bit(0)[0] && !Bit(0)[1] && !Bit(1)[0] && Bit(1)[1];
  }

  // ----- registers --------------------------------------------------------

  /** The 43 registers of the bank, in address order. */
  datatype Reg =
    | Freq(ch: Chan) | DutyCycle(ch: Chan) | Counts(ch: Chan)
    | RealFreq(ch: Chan) | RealDutyCycle(ch: Chan) | Mode(ch: Chan)
    | TrgMask(src: Chan) | StartPwm | StopPwm | EnableSingle | Reserved1
    | TrgMode(src: Chan) | ConfEn | Enable | TrgAllMode
    | TrigState | ChState | ExecState | EvntEnable

  /** Wire types of the register protocol. */
  datatype RegType = U8 | I8 | U16 | I16 | U32 | I32 | U64 | I64 | Float

  /** Register at position idx of the reader and writer tables. */
  function RegAt(idx: nat): Reg
    requires idx < 43
  {
    if idx < 4 then Freq(idx)
    else if idx < 8 then DutyCycle(idx - 4)
    else if idx < 12 then Counts(idx - 8)
    else if idx < 16 then RealFreq(idx - 12)
    else if idx < 20 then RealDutyCycle(idx - 16)
    else if idx < 24 then Mode(idx - 20)
    else if idx < 28 then TrgMask(idx - 24)
    else if idx == 28 then StartPwm
    else if idx == 29 then StopPwm
    else if idx == 30 then EnableSingle
    else if idx == 31 then Reserved1
    else if idx < 36 then TrgMode(idx - 32)
    else if idx == 36 then ConfEn
    else if idx == 37 then Enable
    else if idx == 38 then TrgAllMode
    else if idx == 39 then TrigState
    else if idx == 40 then ChState
    else if idx == 41 then ExecState
    else EvntEnable
  }

  /** The ADD_REG_* constant of each register. */
  function AddressOf(r: Reg): uint8
  {
    match r
    case Freq(ch) => 32 + ch
    case DutyCycle(ch) => 36 + ch
    case Counts(ch) => 40 + ch
    case RealFreq(ch) => 44 + ch
    case RealDutyCycle(ch) => 48 + ch
    case Mode(ch) => 52 + ch
    case TrgMask(i) => 56 + i
    case StartPwm => 60
    case StopPwm => 61
    case EnableSingle => 62
    case Reserved1 => 63
    case TrgMode(i) => 64 + i
    case ConfEn => 68
    case Enable => 69
    case TrgAllMode => 70
    case TrigState => 71
    case ChState => 72
    case ExecState => 73
    case EvntEnable => 74
  }

  /** The header's addresses and the table order agree, in both directions. */
  lemma AddressTableRoundTrip(idx: nat, r: Reg)
    requires idx < 43
    ensures AddrMin <= AddressOf(r) <= AddrMax
    ensures AddressOf(RegAt(idx)) == AddrMin + idx
    ensures RegAt(AddressOf(r) - AddrMin) == r
  {
  }

  /** The C type of each field of the register struct. */
  function FieldType(r: Reg): RegType
  {
    match r
    case Freq(_) => Float
    case DutyCycle(_) => Float
    case Counts(_) => U32
    case RealFreq(_) => Float
    case RealDutyCycle(_) => Float
    case _ => U8
  }

  /** The per-register type table handed to the core (app_regs_type). */
  const TypeTable: seq<RegType> := [
    Float, Float, Float, Float,
    Float, Float, Float, Float,
    U32, U32, U32, U32,
    Float, Float, Float, Float,
    Float, Float, Float, Float,
    U8, U8, U8, U8,
    U8, U8, U8, U8,
    U8, U8, U8, U8,
    U8, U8, U8, U8,
    U8, U8, U8,
    U8, U8, U8, U8
  ]

  /** The per-register element counts handed to the core (app_regs_n_elements). */
  const ElementTable: seq<nat> := [
    1, 1, 1, 1, 1, 1, 1, 1, 1, 1, 1, 1, 1, 1, 1, 1, 1, 1, 1, 1, 1, 1,
    1, 1, 1, 1, 1, 1, 1, 1, 1, 1, 1, 1, 1, 1, 1, 1, 1, 1, 1, 1, 1
  ]

  /** Bank size, type table, element table and reader/writer tables all have
      43 entries, and the type table agrees with the struct's field types. */
  lemma TablesAgree()
    ensures BankSize == 43 && |TypeTable| == 43 && |ElementTable| == 43
    ensures forall idx :: 0 <= idx < 43 ==> TypeTable[idx] == FieldType(RegAt(idx))
    ensures forall idx :: 0 <= idx < 43 ==> ElementTable[idx] == 1
  {
  }

  /** Bits a host write may set in each bit-mask register (app_funcs.c guards). */
  function AllowedBits(r: Reg): Byte
  {
    match r
    case Mode(_) => ChModeMask
    case TrgMask(_) => LowNibble
    case StartPwm => LowNibble
    case StopPwm => LowNibble
    case EnableSingle => LowNibble
    case TrgMode(_) => Or(TrgModeMask, TrgPolarityBit)
    case ConfEn => LowNibble
    case Enable => LowNibble
    case TrgAllMode => Or(AllModeMask, AllPolarityBit)
    case EvntEnable => EventExecBit
    case _ => Not(Zero)
  }

  // ----- register contents ------------------------------------------------

  /** The register struct: per-channel fields are sequences of four. */
  datatype AppRegs = AppRegs(
    freq: seq<real>, dutyCycle: seq<real>, counts: seq<uint32>,
    realFreq: seq<real>, realDutyCycle: seq<real>,
    mode: seq<Byte>, trgMask: seq<Byte>,
    startPwm: Byte, stopPwm: Byte, enableSingle: Byte, reserved1: Byte,
    trgMode: seq<Byte>, confEn: Byte, enable: Byte, trgAllMode: Byte,
    trigState: Byte, chState: Byte, execState: Byte, evntEnable: Byte)

  predicate Shaped(r: AppRegs)
  {
    |r.freq| == 4 && |r.dutyCycle| == 4 && |r.counts| == 4 &&
    |r.realFreq| == 4 && |r.realDutyCycle| == 4 &&
    |r.mode| == 4 && |r.trgMask| == 4 && |r.trgMode| == 4
  }

  /** A byte fits the allowed bits of its register. */
  predicate Fits(v: Byte, allowed: Byte)
  {
    And(v, Not(allowed)) == Zero
  }

  /** The bounds 0.1 and 99.9 of the duty-cycle guard as the ATxmega build
      holds them: avr-gcc's `double` is IEEE 754 binary32, so the constants
      are 0.1f (0x3DCCCCCD, 13421773 / 2^27) and 99.9f (0x42C7CCCD,
      13094093 / 2^17), the nearest binary32 numbers to the decimals. */
  const DutyMin: real := 13421773.0 / 134217728.0
  const DutyMax: real := 13094093.0 / 131072.0

  /** What the write guards keep true of the bank: frequencies, duty cycles
      and counts in their accepted ranges and no undefined bit set. */
  predicate InRange(r: AppRegs)
  {
    Shaped(r) &&
    (forall ch :: 0 <= ch < 4 ==> 0.5 <= r.freq[ch] <= 32768.0) &&
    (forall ch :: 0 <= ch < 4 ==> DutyMin < r.dutyCycle[ch] < DutyMax) &&
    (forall ch :: 0 <= ch < 4 ==> r.counts[ch] != 0) &&
    (forall ch :: 0 <= ch < 4 ==> Fits(r.mode[ch], ChModeMask)) &&
    (forall i :: 0 <= i < 4 ==> Fits(r.trgMask[i], LowNibble)) &&
    (forall i :: 0 <= i < 4 ==> Fits(r.trgMode[i], Or(TrgModeMask, TrgPolarityBit))) &&
    Fits(r.startPwm, LowNibble) && Fits(r.stopPwm, LowNibble) &&
    Fits(r.enableSingle, LowNibble) && Fits(r.confEn, LowNibble) &&
    Fits(r.enable, LowNibble) && Fits(r.trgAllMode, Or(AllModeMask, AllPolarityBit)) &&
    Fits(r.execState, LowNibble) && Fits(r.evntEnable, EventExecBit)
  }

  /** The documented reset values (app.c, core_callback_reset_registers). */
  function DefaultRegs(): AppRegs
  {
    AppRegs(
      freq := [10.0, 10.0, 10.0, 10.0],
      dutyCycle := [50.0, 50.0, 50.0, 50.0],
      counts := [10, 20, 30, 40],
      realFreq := [10.0, 10.0, 10.0, 10.0],
      realDutyCycle := [50.0, 50.0, 50.0, 50.0],
      mode := [ChModeCount, ChModeCount, ChModeCount, ChModeCount],
      trgMask := [Bit(0), Bit(1), Bit(2), Bit(3)],
      startPwm := Zero, stopPwm := Zero, enableSingle := Zero, reserved1 := Zero,
      trgMode := [TrgModeStart, TrgModeStart, TrgModeStart, TrgModeStart],
      confEn := Zero, enable := Zero, trgAllMode := AllModeTrigAll,
      trigState := Zero, chState := Zero, execState := Zero, evntEnable := EventExecBit)
  }

  /** The defaults satisfy every write guard. */
  lemma DefaultsInRange()
    ensures InRange(DefaultRegs())
  {
    var d := DefaultRegs();
    FitsBit(0, ChModeMask);
    forall i | 0 <= i < 4 ensures Fits(d.trgMask[i], LowNibble) {
      FitsBit(i, LowNibble);
    }
    assert Fits(Zero, LowNibble) && Fits(Zero, Or(TrgModeMask, TrgPolarityBit));
    assert Fits(Zero, Or(AllModeMask, AllPolarityBit));
    FitsBit(0, EventExecBit);
  }

  /** A single bit fits a mask that has it. */
  lemma FitsBit(j: nat, allowed: Byte)
    requires j < 8 && Has(allowed, j)
    ensures Fits(Bit(j), allowed)
  {
  }

  /** The defaults route trigger i to channel i only and leave every
      channel runnable (no enable confirmation required). */
  lemma DefaultRouting()
    ensures forall i, j :: 0 <= i < 4 && 0 <= j < 4 ==> (Has(DefaultRegs().trgMask[i], j) <==> i == j)
    ensures DefaultRegs().execState == Zero && DefaultRegs().confEn == Zero
  {
  }

  /** The register bank with every field zero: static storage before the core
      runs the reset callback. */
  function ZeroRegs(): AppRegs
    ensures Shaped(ZeroRegs())
  {
    AppRegs([0.0, 0.0, 0.0, 0.0], [0.0, 0.0, 0.0, 0.0], [0, 0, 0, 0],
            [0.0, 0.0, 0.0, 0.0], [0.0, 0.0, 0.0, 0.0], [Zero, Zero, Zero, Zero], [Zero, Zero, Zero, Zero],
            Zero, Zero, Zero, Zero, [Zero, Zero, Zero, Zero], Zero, Zero, Zero, Zero, Zero, Zero, Zero)
  }

  // ----- the one-byte registers -------------------------------------------

  /** The bit-mask registers a host may write: the writer checks the
      allowed bits and then stores the byte verbatim. */
  predicate IsBitsReg(r: Reg)
  {
    r.Mode? || r.TrgMask? || r == EnableSingle || r.TrgMode? || r == ConfEn || r == Enable ||
    r == TrgAllMode || r == EvntEnable
  }

  /** The content of a one-byte register. */
  function ByteField(regs: AppRegs, r: Reg): Byte
    requires Shaped(regs) && FieldType(r) == U8
  {
    match r
    case Mode(ch) => regs.mode[ch]
    case TrgMask(i) => regs.trgMask[i]
    case StartPwm => regs.startPwm
    case StopPwm => regs.stopPwm
    case EnableSingle => regs.enableSingle
    case Reserved1 => regs.reserved1
    case TrgMode(i) => regs.trgMode[i]
    case ConfEn => regs.confEn
    case Enable => regs.enable
    case TrgAllMode => regs.trgAllMode
    case TrigState => regs.trigState
    case ChState => regs.chState
    case ExecState => regs.execState
    case EvntEnable => regs.evntEnable
    case _ => Zero
  }

  /** The bank after the assignment `app_regs.REG_x = v` to a one-byte register. */
  function WithByteField(regs: AppRegs, r: Reg, v: Byte): (n: AppRegs)
    requires Shaped(regs) && FieldType(r) == U8
    ensures Shaped(n)
  {
    match r
    case Mode(ch) => regs.(mode := regs.mode[ch := v])
    case TrgMask(i) => regs.(trgMask := regs.trgMask[i := v])
    case StartPwm => regs.(startPwm := v)
    case StopPwm => regs.(stopPwm := v)
    case EnableSingle => regs.(enableSingle := v)
    case Reserved1 => regs.(reserved1 := v)
    case TrgMode(i) => regs.(trgMode := regs.trgMode[i := v])
    case ConfEn => regs.(confEn := v)
    case Enable => regs.(enable := v)
    case TrgAllMode => regs.(trgAllMode := v)
    case TrigState => regs.(trigState := v)
    case ChState => regs.(chState := v)
    case ExecState => regs.(execState := v)
    case EvntEnable => regs.(evntEnable := v)
    case _ => regs
  }

  /** Storing into a one-byte register changes exactly that register: it
      reads back the stored byte, every other one-byte register keeps its
      content, and the wider registers are untouched. */
  lemma ByteFieldStore(regs: AppRegs, r: Reg, other: Reg, v: Byte)
    requires Shaped(regs) && FieldType(r) == U8 && FieldType(other) == U8
    ensures ByteField(WithByteField(regs, r, v), r) == v
    ensures other != r ==> ByteField(WithByteField(regs, r, v), other) == ByteField(regs, other)
    ensures var n := WithByteField(regs, r, v);
            n.freq == regs.freq && n.dutyCycle == regs.dutyCycle && n.counts == regs.counts &&
            n.realFreq == regs.realFreq && n.realDutyCycle == regs.realDutyCycle
  {
  }

  /** TRIG_STATE: bits 0..3 are the levels of the four trigger inputs, bit 4
      the level of the TRIG_ALL input. */
  function TrigLevels(trigIn: seq<bool>, trigAll: bool): (b: Byte)
    requires |trigIn| == 4
    ensures forall k :: 0 <= k < 4 ==> (Has(b, k) <==> trigIn[k])
    ensures Has(b, 4) == trigAll
    ensures forall k :: 5 <= k < 8 ==> !Has(b, k)
  {
    [trigIn[0], trigIn[1], trigIn[2], trigIn[3], trigAll, false, false, false]
  }

  /** An event sent to the host: the address of a register and its content
      at the moment of sending. */
  datatype Event = Event(address: uint8, value: Byte)
}
