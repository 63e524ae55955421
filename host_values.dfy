/** Host-written values and the guards that accept or reject them
    (Firmware/MultiPwm/app_funcs.c). A writer receives a pointer to the raw
    little-endian payload and reinterprets it as `float`, `uint32_t` or
    `uint8_t`; here the payload is a sequence of byte values and the
    reinterpretation is written out. */
module HostValues {
  import opened Bits
  import opened Registers

  // ----- decoding ---------------------------------------------------------

  lemma {:induction false} Pow2Add(a: nat, b: nat)
    ensures Pow2(a + b) == Pow2(a) * Pow2(b)
  {
    if a > 0 { Pow2Add(a - 1, b); }
  }

  /** `*(uint32_t*)a` on a little-endian target. */
  function DecodeU32(b: seq<uint8>): (w: uint32)
    requires |b| == 4
  {
    b[0] as int + 0x100 * (b[1] as int) + 0x1_0000 * (b[2] as int) + 0x100_0000 * (b[3] as int)
  }

  /** An IEEE-754 binary32 value: a finite number, an infinity or NaN. */
  datatype Float = Finite(value: real) | PosInf | NegInf | NaN

  /** 2^e for an integer exponent e. */
  function Scale(e: int): (s: real)
    ensures s > 0.0
  {
    if e >= 0 then Pow2(e) as real else 1.0 / Pow2(-e) as real
  }

  /** The magnitude a biased exponent below 255 and a 23-bit fraction
      encode: subnormal for exponent 0, normal otherwise. */
  function Magnitude(exponent: nat, fraction: nat): real
  {
    var significand := if exponent == 0 then fraction else fraction + 0x80_0000;
    significand as real * Scale(if exponent == 0 then -149 else exponent - 150)
  }

  /** The binary32 number a 32-bit word holds: sign bit 31, exponent bits
      23..30, fraction bits 0..22. */
  function FloatOfWord(w: uint32): (f: Float)
    ensures f == NaN <==> (w / 0x80_0000) % 0x100 == 0xFF && w % 0x80_0000 != 0
  {
    var negative := w >= 0x8000_0000;
    var exponent := (w / 0x80_0000) % 0x100;
    var fraction := w % 0x80_0000;
    if exponent == 0xFF then
      (if fraction != 0 then NaN else if negative then NegInf else PosInf)
    else
      var m := Magnitude(exponent, fraction);
      Finite(if negative then -m else m)
  }

  /** `*(float*)a`: the little-endian word of the payload, read as binary32. */
  function DecodeFloat(b: seq<uint8>): (f: Float)
    requires |b| == 4
    ensures f == NaN <==> (DecodeU32(b) / 0x80_0000) % 0x100 == 0xFF && DecodeU32(b) % 0x80_0000 != 0
  {
    FloatOfWord(DecodeU32(b))
  }

  /** Distinct payloads are distinct words. */
  lemma DecodeU32Injective(a: seq<uint8>, b: seq<uint8>)
    requires |a| == 4 && |b| == 4 && DecodeU32(a) == DecodeU32(b)
    ensures a == b
  {
    assert a[3] == b[3];
    assert a[2] == b[2];
    assert a[1] == b[1];
    assert a[0] == b[0];
  }

  /** The arithmetic opposite of a binary32 number. */
  function Negated(f: Float): Float
  {
    match f
    case Finite(v) => Finite(-v)
    case PosInf => NegInf
    case NegInf => PosInf
    case NaN => NaN
  }

  /** Setting the sign bit negates the number and nothing else. */
  lemma SignSymmetry(w: uint32)
    requires w < 0x8000_0000
    ensures FloatOfWord(w + 0x8000_0000) == Negated(FloatOfWord(w))
  {
    var u := w + 0x8000_0000;
    assert u / 0x80_0000 == w / 0x80_0000 + 0x100;
    assert u % 0x80_0000 == w % 0x80_0000;
  }

  lemma ScaleStep(e: int)
    ensures Scale(e + 1) == 2.0 * Scale(e)
  {
    if e <= -2 {
      var p := Pow2(-e - 1) as real;
      assert Pow2(-e) as real == 2.0 * p;
      assert 2.0 * (1.0 / (2.0 * p)) == 1.0 / p;
    }
  }

  /** A word below 0x7F800000 (sign 0, exponent below 255) is finite, with
      the magnitude of its exponent and fraction fields. */
  lemma PositiveWord(w: uint32)
    requires w < 0x7F80_0000
    ensures w / 0x80_0000 < 0xFF
    ensures FloatOfWord(w) == Finite(Magnitude(w / 0x80_0000, w % 0x80_0000))
  {
  }

  /** The magnitude grows with the fraction, and across an exponent step. */
  lemma MagnitudeNext(e: nat, f: nat)
    requires e < 0xFF && f < 0x80_0000
    ensures 0.0 <= Magnitude(e, f)
    ensures f + 1 < 0x80_0000 ==> Magnitude(e, f) < Magnitude(e, f + 1)
    ensures f + 1 == 0x80_0000 ==> Magnitude(e, f) < Magnitude(e + 1, 0)
  {
    var s := Scale(if e == 0 then -149 else e - 150);
    var sig := if e == 0 then f else f + 0x80_0000;
    assert Magnitude(e, f) == sig as real * s;
    if f + 1 < 0x80_0000 {
      assert Magnitude(e, f + 1) == sig as real * s + s;
    } else {
      ScaleStep(e - 150);
      if e == 0 {
        assert Magnitude(e + 1, 0) == 0x80_0000 as real * s;
      } else {
        assert Magnitude(e + 1, 0) == 0x100_0000 as real * s;
      }
    }
  }

  /** The numbers of the words 0 .. 0x7F7FFFFF (the non-negative finite ones)
      are non-negative, and each is below the next one. */
  lemma MagnitudeStep(w: uint32)
    requires w + 1 < 0x7F80_0000
    ensures FloatOfWord(w).Finite? && FloatOfWord(w + 1).Finite?
    ensures 0.0 <= FloatOfWord(w).value < FloatOfWord(w + 1).value
  {
    PositiveWord(w);
    PositiveWord(w + 1);
    var e, f := w / 0x80_0000, w % 0x80_0000;
    MagnitudeNext(e, f);
    if f + 1 < 0x80_0000 {
      assert (w + 1) / 0x80_0000 == e && (w + 1) % 0x80_0000 == f + 1;
    } else {
      assert (w + 1) / 0x80_0000 == e + 1 && (w + 1) % 0x80_0000 == 0;
    }
  }

  /** Strict monotonicity: among the words 0 .. 0x7F7FFFFF a larger word
      holds a larger number. */
  lemma {:induction false} MagnitudeMonotone(v: uint32, w: uint32)
    requires v < w < 0x7F80_0000
    ensures FloatOfWord(v).Finite? && FloatOfWord(w).Finite?
    ensures FloatOfWord(v).value < FloatOfWord(w).value
    decreases w - v
  {
    MagnitudeStep(w - 1);
    if v + 1 < w {
      MagnitudeMonotone(v, w - 1);
    }
  }

  /** Every finite word with the sign bit 0 lies below 0x7F800000 and
      holds a number at least 0; with the sign bit 1, at most 0. */
  lemma SignOfWord(w: uint32)
    requires FloatOfWord(w).Finite?
    ensures w < 0x8000_0000 ==> w < 0x7F80_0000 && FloatOfWord(w).value >= 0.0
    ensures w >= 0x8000_0000 ==> FloatOfWord(w).value <= 0.0
  {
    var u := if w < 0x8000_0000 then w else w - 0x8000_0000;
    if w >= 0x8000_0000 {
      SignSymmetry(u);
    }
    PositiveWord(u);
    MagnitudeNext(u / 0x80_0000, u % 0x80_0000);
  }

  /** IEEE comparisons `x < c` and `x > c` against a constant: NaN compares false. */
  predicate FloatLess(x: Float, c: real)
  {
    match x
    case Finite(v) => v < c
    case NegInf => true
    case PosInf => false
    case NaN => false
  }

  predicate FloatGreater(x: Float, c: real)
  {
    match x
    case Finite(v) => v > c
    case NegInf => false
    case PosInf => true
    case NaN => false
  }

  predicate FloatLessEq(x: Float, c: real)
  {
    match x
    case Finite(v) => v <= c
    case NegInf => true
    case PosInf => false
    case NaN => false
  }

  predicate FloatGreaterEq(x: Float, c: real)
  {
    match x
    case Finite(v) => v >= c
    case NegInf => false
    case PosInf => true
    case NaN => false
  }

  // ----- frequency guard --------------------------------------------------

  /** The guard of the CHn_FREQ writers as written: reject when `reg < 0.5 || reg > 32768.0`. */
  predicate FreqRejectedAsWritten(x: Float)
  {
    FloatLess(x, 0.5) || FloatGreater(x, 32768.0)
  }

  /** The intended guard: accept exactly the numbers in [0.5, 32768]. */
  predicate FreqAccepted(x: Float)
  {
    x.Finite? && 0.5 <= x.value <= 32768.0
  }

  /** The two guards agree on every value except NaN. */
  lemma FreqGuardAgreesExceptNaN(x: Float)
    ensures x != NaN ==> (FreqAccepted(x) <==> !FreqRejectedAsWritten(x))
    ensures FreqAccepted(x) <==> x.Finite? && !(x.value < 0.5) && !(x.value > 32768.0)
  {
  }

  /** The payload 0x7FC00000 (a quiet NaN) passes the guard as written. */
  lemma FreqGuardLetsNaNThrough()
    ensures DecodeFloat([0x00, 0x00, 0xC0, 0x7F]) == NaN
    ensures !FreqRejectedAsWritten(DecodeFloat([0x00, 0x00, 0xC0, 0x7F]))
    ensures !FreqAccepted(DecodeFloat([0x00, 0x00, 0xC0, 0x7F]))
  {
    assert DecodeU32([0x00, 0x00, 0xC0, 0x7F]) == 0x7FC0_0000;
    assert 0x7FC0_0000 / 0x80_0000 == 0xFF && 0x7FC0_0000 % 0x80_0000 == 0x40_0000;
  }

  /** The range ends are exactly representable: 0.5 (0x3F000000) and
      32768.0 (0x47000000) are accepted. */
  lemma FreqGuardLowerEnd()
    ensures DecodeFloat([0x00, 0x00, 0x00, 0x3F]) == Finite(0.5)
    ensures FreqAccepted(DecodeFloat([0x00, 0x00, 0x00, 0x3F]))
  {
    assert DecodeU32([0x00, 0x00, 0x00, 0x3F]) == 0x3F00_0000;
    assert 0x3F00_0000 / 0x80_0000 == 0x7E && 0x3F00_0000 % 0x80_0000 == 0;
    assert Pow2(8) == 0x100;
    Pow2Add(8, 8);
    Pow2Add(8, 16);
    assert Pow2(24) == 0x100_0000;
  }

  lemma FreqGuardUpperEnd()
    ensures DecodeFloat([0x00, 0x00, 0x00, 0x47]) == Finite(32768.0)
    ensures FreqAccepted(DecodeFloat([0x00, 0x00, 0x00, 0x47]))
  {
    assert DecodeU32([0x00, 0x00, 0x00, 0x47]) == 0x4700_0000;
    assert 0x4700_0000 / 0x80_0000 == 0x8E && 0x4700_0000 % 0x80_0000 == 0;
    assert Pow2(8) == 0x100;
  }

  /** The infinities (0x7F800000 and 0xFF800000) are rejected. */
  lemma FreqGuardRejectsInfinities()
    ensures DecodeFloat([0x00, 0x00, 0x80, 0x7F]) == PosInf
    ensures DecodeFloat([0x00, 0x00, 0x80, 0xFF]) == NegInf
    ensures !FreqAccepted(DecodeFloat([0x00, 0x00, 0x80, 0x7F]))
    ensures !FreqAccepted(DecodeFloat([0x00, 0x00, 0x80, 0xFF]))
  {
    assert DecodeU32([0x00, 0x00, 0x80, 0x7F]) == 0x7F80_0000;
    assert DecodeU32([0x00, 0x00, 0x80, 0xFF]) == 0xFF80_0000;
    assert 0x7F80_0000 / 0x80_0000 == 0xFF && 0x7F80_0000 % 0x80_0000 == 0;
    assert 0xFF80_0000 / 0x80_0000 == 0x1FF && 0xFF80_0000 % 0x80_0000 == 0;
  }

  // ----- duty-cycle guard -------------------------------------------------

  /** The guard of the CHn_DUTYCYCLE writers as written: reject when
      `reg <= 0.1 || reg >= 99.9`, with the binary32 constants of the
      target (DutyMin, DutyMax). */
  predicate DutyRejectedAsWritten(x: Float)
  {
    FloatLessEq(x, DutyMin) || FloatGreaterEq(x, DutyMax)
  }

  /** The intended guard: accept exactly the numbers strictly between the two constants. */
  predicate DutyAccepted(x: Float)
  {
    x.Finite? && DutyMin < x.value < DutyMax
  }

  lemma DutyGuardAgreesExceptNaN(x: Float)
    ensures x != NaN ==> (DutyAccepted(x) <==> !DutyRejectedAsWritten(x))
    ensures DutyAccepted(x) <==> x.Finite? && !(x.value <= DutyMin) && !(x.value >= DutyMax)
  {
  }

  lemma DutyGuardLetsNaNThrough()
    ensures !DutyRejectedAsWritten(DecodeFloat([0x00, 0x00, 0xC0, 0x7F]))
    ensures !DutyAccepted(DecodeFloat([0x00, 0x00, 0xC0, 0x7F]))
  {
    assert DecodeU32([0x00, 0x00, 0xC0, 0x7F]) == 0x7FC0_0000;
    assert 0x7FC0_0000 / 0x80_0000 == 0xFF && 0x7FC0_0000 % 0x80_0000 == 0x40_0000;
  }

  /** The words of 0.1f, of 99.9f and of the number just below 99.9f. */
  lemma DutyBoundWords()
    ensures FloatOfWord(0x3DCC_CCCD) == Finite(DutyMin)
    ensures FloatOfWord(0x42C7_CCCD) == Finite(DutyMax)
    ensures FloatOfWord(0x42C7_CCCC) == Finite(13094092.0 / 131072.0)
  {
    assert Pow2(8) == 0x100 && Pow2(9) == 0x200 && Pow2(10) == 0x400;
    Pow2Add(9, 8);
    Pow2Add(17, 10);
    PositiveWord(0x3DCC_CCCD);
    PositiveWord(0x42C7_CCCD);
    PositiveWord(0x42C7_CCCC);
    assert 0x3DCC_CCCD / 0x80_0000 == 0x7B && 0x3DCC_CCCD % 0x80_0000 == 0x4C_CCCD;
    assert 0x42C7_CCCD / 0x80_0000 == 0x85 && 0x42C7_CCCD % 0x80_0000 == 0x47_CCCD;
    assert 0x42C7_CCCC % 0x80_0000 == 0x47_CCCC;
  }

  /** The duty constants as payloads: 0.1f (CD CC CC 3D) lies just above the
      decimal 0.1 and is itself refused; 99.9f (CD CC C7 42) lies just above
      99.9. */
  lemma DutyBoundPayloads()
    ensures DecodeFloat([0xCD, 0xCC, 0xCC, 0x3D]) == Finite(DutyMin) && 0.1 < DutyMin
    ensures DecodeFloat([0xCD, 0xCC, 0xC7, 0x42]) == Finite(DutyMax) && 99.9 < DutyMax
    ensures DutyRejectedAsWritten(DecodeFloat([0xCD, 0xCC, 0xCC, 0x3D]))
    ensures DutyRejectedAsWritten(DecodeFloat([0xCD, 0xCC, 0xC7, 0x42]))
  {
    DutyBoundWords();
    assert DecodeU32([0xCD, 0xCC, 0xCC, 0x3D]) == 0x3DCC_CCCD;
    assert DecodeU32([0xCD, 0xCC, 0xC7, 0x42]) == 0x42C7_CCCD;
  }

  /** Over every payload: the duty guard accepts exactly the words strictly
      between those of 0.1f and 99.9f, and every duty it accepts lies
      strictly between the decimals 0.1 and 99.9. */
  lemma DutyAcceptedPayloads(b: seq<uint8>)
    requires |b| == 4
    ensures DutyAccepted(DecodeFloat(b)) <==> 0x3DCC_CCCD < DecodeU32(b) < 0x42C7_CCCD
    ensures DutyAccepted(DecodeFloat(b)) ==> 0.1 < DecodeFloat(b).value < 99.9
  {
    var w := DecodeU32(b);
    DutyBoundWords();
    if 0x3DCC_CCCD < w < 0x42C7_CCCD {
      MagnitudeMonotone(0x3DCC_CCCD, w);
      MagnitudeMonotone(w, 0x42C7_CCCD);
      if w < 0x42C7_CCCC {
        MagnitudeMonotone(w, 0x42C7_CCCC);
      }
    } else if DutyAccepted(FloatOfWord(w)) {
      SignOfWord(w);
      if w <= 0x3DCC_CCCD {
        if w < 0x3DCC_CCCD {
          MagnitudeMonotone(w, 0x3DCC_CCCD);
        }
      } else if w > 0x42C7_CCCD {
        MagnitudeMonotone(0x42C7_CCCD, w);
      }
    }
  }

  // ----- the per-register acceptance table -------------------------------

  /** Size in bytes of one element of each wire type. */
  function TypeSize(t: RegType): nat
  {
    match t
    case U8 => 1
    case I8 => 1
    case U16 => 2
    case I16 => 2
    case U32 => 4
    case I32 => 4
    case U64 => 8
    case I64 => 8
    case Float => 4
  }

  /** Whether the writer of register r returns true for the payload b
      (one element of the register's own type). */
  predicate WriteAccepted(r: Reg, b: seq<uint8>)
    requires |b| == TypeSize(FieldType(r))
  {
    match r
    case Freq(_) => FreqAccepted(DecodeFloat(b))
    case DutyCycle(_) => DutyAccepted(DecodeFloat(b))
    case Counts(_) => DecodeU32(b) != 0
    case RealFreq(_) => false
    case RealDutyCycle(_) => false
    case Reserved1 => true
    case TrigState => false
    case ChState => false
    case ExecState => false
    case _ => Fits(FromOctet(b[0]), AllowedBits(r))
  }

  /** A bit-mask write is accepted iff every bit it sets is an allowed bit. */
  lemma FitsIffBitsAllowed(v: Byte, allowed: Byte)
    ensures Fits(v, allowed) <==> forall k :: 0 <= k < 8 && Has(v, k) ==> Has(allowed, k)
  {
    ZeroIff(And(v, Not(allowed)));
    if Fits(v, allowed) {
      forall k | 0 <= k < 8 && Has(v, k) ensures Has(allowed, k) {
        assert And(v, Not(allowed))[k] == Zero[k];
      }
    } else {
      var d := And(v, Not(allowed));
      var k: nat := if d[0] then 0 else if d[1] then 1 else if d[2] then 2 else if d[3] then 3
                    else if d[4] then 4 else if d[5] then 5 else if d[6] then 6 else 7;
      assert d[k];
      assert Has(v, k) && !Has(allowed, k);
    }
  }

  /** The read-only registers refuse every write, RESERVED1 accepts every
      byte, and a counts write of 0 is refused. */
  lemma ReadOnlyRegistersRefuse(r: Reg, b: seq<uint8>)
    requires |b| == TypeSize(FieldType(r))
    ensures (r.RealFreq? || r.RealDutyCycle? || r == TrigState || r == ChState || r == ExecState)
            ==> !WriteAccepted(r, b)
    ensures r == Reserved1 ==> WriteAccepted(r, b)
    ensures r.Counts? ==> (WriteAccepted(r, b) <==> b != [0, 0, 0, 0])
  {
    if r.Counts? && DecodeU32(b) == 0 {
      assert b == [0, 0, 0, 0];
    }
  }

  // ----- storing ------------------------------------------------------------

  /** The bank after the writer of r accepts and stores the payload b
      (`app_regs.REG_x = *(T*)a`); RESERVED1 stores nothing. */
  function Stored(regs: AppRegs, r: Reg, b: seq<uint8>): (n: AppRegs)
    requires Shaped(regs) && |b| == TypeSize(FieldType(r)) && WriteAccepted(r, b)
    ensures Shaped(n)
  {
    match r
    case Freq(ch) => regs.(freq := regs.freq[ch := DecodeFloat(b).value])
    case DutyCycle(ch) => regs.(dutyCycle := regs.dutyCycle[ch := DecodeFloat(b).value])
    case Counts(ch) => regs.(counts := regs.counts[ch := DecodeU32(b)])
    case RealFreq(_) => regs
    case RealDutyCycle(_) => regs
    case Reserved1 => regs
    case TrigState => regs
    case ChState => regs
    case ExecState => regs
    case _ => WithByteField(regs, r, FromOctet(b[0]))
  }

  /** Two accepted positive binary32 payloads with the same number are the
      same payload. */
  lemma PositivePayloadInjective(a: seq<uint8>, b: seq<uint8>)
    requires |a| == 4 && |b| == 4
    requires DecodeFloat(a).Finite? && DecodeFloat(b).Finite? && DecodeFloat(a).value > 0.0
    requires DecodeFloat(a).value == DecodeFloat(b).value
    ensures a == b
  {
    var v, w := DecodeU32(a), DecodeU32(b);
    SignOfWord(v);
    SignOfWord(w);
    if v < w {
      MagnitudeMonotone(v, w);
    } else if w < v {
      MagnitudeMonotone(w, v);
    }
    DecodeU32Injective(a, b);
  }

  /** Storing a number loses nothing: two accepted FREQ, DUTYCYCLE or COUNTS
      payloads leave the same bank iff they are the same payload. */
  lemma StoredKeepsPayload(regs: AppRegs, r: Reg, a: seq<uint8>, b: seq<uint8>)
    requires Shaped(regs) && (r.Freq? || r.DutyCycle? || r.Counts?)
    requires |a| == TypeSize(FieldType(r)) && WriteAccepted(r, a)
    requires |b| == TypeSize(FieldType(r)) && WriteAccepted(r, b)
    ensures Stored(regs, r, a) == Stored(regs, r, b) <==> a == b
  {
    if Stored(regs, r, a) == Stored(regs, r, b) {
      if r.Freq? {
        assert Stored(regs, r, a).freq[r.ch] == DecodeFloat(a).value;
        assert Stored(regs, r, b).freq[r.ch] == DecodeFloat(b).value;
        PositivePayloadInjective(a, b);
      } else if r.DutyCycle? {
        assert Stored(regs, r, a).dutyCycle[r.ch] == DecodeFloat(a).value;
        assert Stored(regs, r, b).dutyCycle[r.ch] == DecodeFloat(b).value;
        PositivePayloadInjective(a, b);
      } else {
        assert Stored(regs, r, a).counts[r.ch] == DecodeU32(a);
        assert Stored(regs, r, b).counts[r.ch] == DecodeU32(b);
        DecodeU32Injective(a, b);
      }
    }
  }

  /** An accepted write of a bit-mask register reads back the byte sent. */
  lemma StoredByteReadsBack(regs: AppRegs, r: Reg, b: seq<uint8>)
    requires Shaped(regs) && (IsBitsReg(r) || r == StartPwm || r == StopPwm)
    requires |b| == TypeSize(FieldType(r)) && WriteAccepted(r, b)
    ensures Value(ByteField(Stored(regs, r, b), r)) == b[0]
  {
    assert Stored(regs, r, b) == WithByteField(regs, r, FromOctet(b[0]));
    ByteFieldStore(regs, r, r, FromOctet(b[0]));
    OctetRoundTrip(b[0], Zero);
  }

  /** Accepted writes keep every register in its accepted range: the write
      guards maintain InRange. */
  lemma StoredInRange(regs: AppRegs, r: Reg, b: seq<uint8>)
    requires InRange(regs) && |b| == TypeSize(FieldType(r)) && WriteAccepted(r, b)
    ensures InRange(Stored(regs, r, b))
  {
    var n := Stored(regs, r, b);
    if r.Mode? {
      assert n.mode == regs.mode[r.ch := FromOctet(b[0])];
    } else if r.TrgMask? {
      assert n.trgMask == regs.trgMask[r.src := FromOctet(b[0])];
    } else if r.TrgMode? {
      assert n.trgMode == regs.trgMode[r.src := FromOctet(b[0])];
    }
  }

  // ----- the register protocol ----------------------------------------------

  /** core_write_app_register's verdict for a write of n elements of type t at
      address add: the address lies in the bank, type and element count
      match the tables, and the register's writer accepts the payload. */
  predicate WriteDispatch(add: uint8, t: RegType, content: seq<uint8>, n: nat)
    requires |content| == TypeSize(t) * n
  {
    TablesAgree();
    AddrMin <= add <= AddrMax && TypeTable[add - AddrMin] == t && ElementTable[add - AddrMin] == n &&
    WriteAccepted(RegAt(add - AddrMin), content)
  }

  /** core_read_app_register's verdict: the address lies in the bank and the
      type matches the table. */
  predicate ReadDispatch(add: uint8, t: RegType)
  {
    AddrMin <= add <= AddrMax && TypeTable[add - AddrMin] == t
  }

  /** The protocol refuses every write outside the bank, of the wrong type,
      of more than one element, and to a read-only register; a write of
      the register's own type and one element is decided by its writer. */
  lemma WriteDispatchRefuses(add: uint8, t: RegType, content: seq<uint8>, n: nat)
    requires |content| == TypeSize(t) * n
    ensures !(AddrMin <= add <= AddrMax) ==> !WriteDispatch(add, t, content, n)
    ensures AddrMin <= add <= AddrMax && t != FieldType(RegAt(add - AddrMin)) ==> !WriteDispatch(add, t, content, n)
    ensures n != 1 ==> !WriteDispatch(add, t, content, n)
    ensures AddrMin <= add <= AddrMax && t == FieldType(RegAt(add - AddrMin)) && n == 1 ==>
              (WriteDispatch(add, t, content, n) <==> WriteAccepted(RegAt(add - AddrMin), content))
    ensures add == ExecStateAddr ==> !WriteDispatch(add, t, content, n)
  {
    TablesAgree();
    if AddrMin <= add <= AddrMax {
      AddressTableRoundTrip(add - AddrMin, RegAt(add - AddrMin));
    }
  }
}
