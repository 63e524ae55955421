/** Integer widths and the bit-level view of a register byte. Every
    register of the device is one byte; channel and trigger-source flags
    occupy bits 0..3 of such a byte. A register byte is modelled as its
    eight bits, and the C operators `|`, `&`, `~`, `^`, `1 << j` become
    the bitwise functions below; a byte as it travels in a host message is
    a number 0..255, and `FromOctet`/`Value` translate between the two. */
module Bits {

  type uint8 = x: int | 0 <= x < 0x100
  type uint16 = x: int | 0 <= x < 0x1_0000
  type uint32 = x: int | 0 <= x < 0x1_0000_0000

  /** A channel (or discrete trigger source) index. */
  type Chan = x: nat | x < 4

  /** A register byte, bit 0 first. */
  type Byte = s: seq<bool> | |s| == 8 witness [false, false, false, false, false, false, false, false]

  const Zero: Byte := [false, false, false, false, false, false, false, false]

  /** Bit j of x is set (`x & (1 << j)`). */
  predicate Has(x: Byte, j: nat)
    requires j < 8
  {
    x[j]
  }

  /** The byte with only bit j set (`1 << j`). */
  function Bit(j: nat): Byte
    requires j < 8
  {
    seq(8, k => k == j)
  }

  function Or(a: Byte, b: Byte): Byte
  {
    seq(8, k requires 0 <= k < 8 => a[k] || b[k])
  }

  function And(a: Byte, b: Byte): Byte
  {
    seq(8, k requires 0 <= k < 8 => a[k] && b[k])
  }

  /** `~a`. */
  function Not(a: Byte): Byte
  {
    seq(8, k requires 0 <= k < 8 => !a[k])
  }

  /** `a ^ b`. */
  function Xor(a: Byte, b: Byte): Byte
  {
    seq(8, k requires 0 <= k < 8 => a[k] != b[k])
  }

  /** x with bit j cleared (`x &= ~(1 << j)`). */
  function Clear(x: Byte, j: nat): Byte
    requires j < 8
  {
    And(x, Not(Bit(j)))
  }

  /** Bit k of the single-bit byte, and of the bitwise operations. */
  lemma BitHas(j: nat, k: nat)
    requires j < 8 && k < 8
    ensures Has(Bit(j), k) <==> j == k
    ensures Bit(j) != Zero
  {
    assert Bit(j)[j] != Zero[j];
  }

  lemma HasOr(a: Byte, b: Byte, j: nat)
    requires j < 8
    ensures Has(Or(a, b), j) <==> Has(a, j) || Has(b, j)
  {
  }

  lemma HasAnd(a: Byte, b: Byte, j: nat)
    requires j < 8
    ensures Has(And(a, b), j) <==> Has(a, j) && Has(b, j)
  {
  }

  lemma HasNot(a: Byte, j: nat)
    requires j < 8
    ensures Has(Not(a), j) <==> !Has(a, j)
  {
  }

  lemma HasXor(a: Byte, b: Byte, j: nat)
    requires j < 8
    ensures Has(Xor(a, b), j) <==> Has(a, j) != Has(b, j)
  {
  }

  lemma HasOps(a: Byte, b: Byte, j: nat)
    requires j < 8
    ensures Has(Or(a, b), j) <==> Has(a, j) || Has(b, j)
    ensures Has(And(a, b), j) <==> Has(a, j) && Has(b, j)
    ensures Has(Not(a), j) <==> !Has(a, j)
    ensures Has(Xor(a, b), j) <==> Has(a, j) != Has(b, j)
  {
    HasOr(a, b, j);
    HasAnd(a, b, j);
    HasNot(a, j);
    HasXor(a, b, j);
  }

  /** Zero is the identity of `|` and of `& ~`. */
  lemma OrZero(a: Byte)
    ensures Or(a, Zero) == a && And(a, Not(Zero)) == a
  {
  }

  lemma OrAssoc(a: Byte, b: Byte, c: Byte)
    ensures Or(Or(a, b), c) == Or(a, Or(b, c))
  {
  }

  /** Masking with a single bit tests that bit. */
  lemma MaskBit(x: Byte, j: nat)
    requires j < 8
    ensures And(x, Bit(j)) == (if Has(x, j) then Bit(j) else Zero)
    ensures And(x, Bit(j)) != Zero <==> Has(x, j)
  {
    assert And(x, Bit(j))[j] == Has(x, j);
    assert Zero[j] == false;
  }

  /** Subset of bytes as bit sets: a ⊆ b is written And(b, a) == a. */
  lemma SubsetTrans(a: Byte, b: Byte, c: Byte)
    requires And(b, a) == a && And(c, b) == b
    ensures And(c, a) == a
  {
  }

  /** A proper subset of a subset of c differs from c. */
  lemma SubsetStrictBelow(a: Byte, b: Byte, c: Byte)
    requires And(b, a) == a && And(c, b) == b && c != b
    ensures c != a
  {
  }

  /** A superset of a proper superset of a differs from a. */
  lemma SubsetStrictAbove(a: Byte, b: Byte, c: Byte)
    requires And(b, a) == a && And(c, b) == b && b != a
    ensures c != a
  {
  }

  // ----- bytes on the wire --------------------------------------------------

  function Pow2(k: nat): (p: nat)
    ensures p >= 1
  {
    if k == 0 then 1 else 2 * Pow2(k - 1)
  }

  /** The k lowest binary digits of v, lowest first. */
  function Digits(v: nat, k: nat): (s: seq<bool>)
    ensures |s| == k
  {
    if k == 0 then [] else [v % 2 == 1] + Digits(v / 2, k - 1)
  }

  /** The number whose binary digits, lowest first, are s. */
  function Number(s: seq<bool>): nat
  {
    if s == [] then 0 else (if s[0] then 1 else 0) + 2 * Number(s[1..])
  }

  /** The register byte of a byte value 0..255 (`uint8_t` as it arrives). */
  function FromOctet(v: uint8): Byte
  {
    Digits(v, 8)
  }

  /** The numeric value of a register byte, as it leaves in a message. */
  function Value(x: Byte): uint8
  {
    NumberBelow(x);
    Number(x)
  }

  lemma {:induction false} NumberBelow(s: seq<bool>)
    ensures Number(s) < Pow2(|s|)
  {
    if s != [] {
      NumberBelow(s[1..]);
    }
  }

  /** Halving a number splits off its lowest binary digit. */
  lemma Halve(n: int, m: int, r: int)
    requires n == 2 * m + r && 0 <= r < 2
    ensures n / 2 == m && n % 2 == r
  {
  }

  /** Digits of a number below 2^k give the number back. */
  lemma {:induction false} NumberOfDigits(v: nat, k: nat)
    requires v < Pow2(k)
    ensures Number(Digits(v, k)) == v
  {
    if k > 0 {
      NumberOfDigits(v / 2, k - 1);
      assert Digits(v, k)[1..] == Digits(v / 2, k - 1);
    }
  }

  /** A digit sequence gives itself back. */
  lemma {:induction false} DigitsOfNumber(s: seq<bool>)
    ensures Digits(Number(s), |s|) == s
  {
    if s != [] {
      DigitsOfNumber(s[1..]);
      Halve(Number(s), Number(s[1..]), if s[0] then 1 else 0);
    }
  }

  /** The two views of a byte correspond one to one. */
  lemma OctetRoundTrip(v: uint8, x: Byte)
    ensures Value(FromOctet(v)) == v
    ensures FromOctet(Value(x)) == x
  {
    NumberOfDigits(v, 8);
    DigitsOfNumber(x);
  }

  // ----- the channel nibble ---------------------------------------------------

  /** The four low bits, one per channel. */
  const LowNibble: Byte := [true, true, true, true, false, false, false, false]

  /** Packs four flags into bits 0..3 of a byte. */
  function Pack4(t: seq<bool>): (m: Byte)
    requires |t| == 4
  {
    [t[0], t[1], t[2], t[3], false, false, false, false]
  }

  /** Bit j of the packed byte is flag j, and no bit above 3 is set. */
  lemma Pack4Has(t: seq<bool>, j: nat)
    requires |t| == 4 && j < 8
    ensures Has(Pack4(t), j) <==> j < 4 && t[j]
  {
  }

  /** Packing is injective: the byte determines the four flags. */
  lemma Pack4Injective(a: seq<bool>, b: seq<bool>)
    requires |a| == 4 && |b| == 4
    ensures Pack4(a) == Pack4(b) <==> a == b
  {
    if Pack4(a) == Pack4(b) {
      assert a[0] == b[0] && a[1] == b[1] && a[2] == b[2] && a[3] == b[3];
    }
  }

  /** Setting or clearing one flag sets or clears exactly that bit. */
  lemma Pack4Update(t: seq<bool>, j: Chan, v: bool)
    requires |t| == 4
    ensures Pack4(t[j := v]) == if v then Or(Pack4(t), Bit(j)) else Clear(Pack4(t), j)
  {
  }

  /** The bits below j, for j in 0..4. */
  function Below(j: nat): Byte
    requires j <= 4
  {
    seq(8, k => k < j)
  }

  /** The bits of x below j. */
  function Upto(x: Byte, j: nat): Byte
    requires j <= 4
  {
    And(x, Below(j))
  }

  /** The zero byte is the byte with no bit set. */
  lemma ZeroIff(x: Byte)
    ensures x == Zero <==> !x[0] && !x[1] && !x[2] && !x[3] && !x[4] && !x[5] && !x[6] && !x[7]
  {
  }

  /** Extending the bits of x below j by bit j. */
  lemma UptoStep(x: Byte, j: nat)
    requires j < 4
    ensures Upto(x, j + 1) == Or(Upto(x, j), if Has(x, j) then Bit(j) else Zero)
    ensures Upto(x, j + 1) != Zero <==> Upto(x, j) != Zero || Has(x, j)
    ensures !Has(Upto(x, j), j)
  {
    ZeroIff(Upto(x, j + 1));
    ZeroIff(Upto(x, j));
  }

  /** Some of four flags is set. */
  predicate AnyOf4(t: seq<bool>)
    requires |t| == 4
  {
    t[0] || t[1] || t[2] || t[3]
  }

  /** Some flag is set iff the packed byte is non-zero. */
  lemma Pack4NonZero(t: seq<bool>)
    requires |t| == 4
    ensures Pack4(t) != Zero <==> AnyOf4(t)
  {
  }

  /** Number of selected bits among the first n. */
  function SelectedCount(sel: Byte, n: nat): (c: nat)
    requires n <= 8
    ensures c <= n
  {
    if n == 0 then 0 else SelectedCount(sel, n - 1) + (if Has(sel, n - 1) then 1 else 0)
  }

  /** A byte within the channel nibble is all its bits below 4. */
  lemma UptoAll(x: Byte)
    requires And(x, Not(LowNibble)) == Zero
    ensures Upto(x, 4) == x
  {
    forall k | 0 <= k < 8 ensures Upto(x, 4)[k] == x[k] {
      assert And(x, Not(LowNibble))[k] == Zero[k];
    }
  }

  /** A superset of a non-zero byte is non-zero. */
  lemma SubsetNonZero(a: Byte, b: Byte)
    requires And(b, a) == a && a != Zero
    ensures b != Zero
  {
  }
}
