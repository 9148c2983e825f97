/** What one refresh pass of the 4-digit display shows: the decimal digits of
    the value, their segment patterns and the one-hot digit-select bytes. */
module Segments {
  import opened CArith
  import opened Bits

  datatype Option<T> = None | Some(value: T)

  /** Number of digit positions on the display. */
  const DigitCount: nat := 4

  /** The position whose decimal point is lit in voltage mode (DP_POS). */
  const DpPos: nat := 1

  /** Segment patterns of the digits 0 to 9. The display is common anode, so a
      0 bit lights a segment; bit 7 is the decimal point and is 1 (dark) in
      every entry. */
  const DigitBits: seq<bv8> := [
    0xC0, // 0b11000000: 0
    0xF9, // 0b11111001: 1
    0xA4, // 0b10100100: 2
    0xB0, // 0b10110000: 3
    0x99, // 0b10011001: 4
    0x92, // 0b10010010: 5
    0x82, // 0b10000010: 6
    0xF8, // 0b11111000: 7
    0x80, // 0b10000000: 8
    0x90  // 0b10010000: 9
  ]

  /** Digit-select bytes, position 0 (leftmost) to 3. */
  const DigitPos: seq<bv8> := [0x01, 0x02, 0x04, 0x08]

  /** The four entries of `digits[4]`: thousands, hundreds, tens and units of
      `n`, each computed with C's truncating `/` and `%`. */
  function Digits(n: int): (d: seq<int>)
    ensures |d| == DigitCount
    ensures n >= 0 ==> forall i :: 0 <= i < DigitCount ==> 0 <= d[i] < 10
  {
    [CRem(CDiv(n, 1000), 10), CRem(CDiv(n, 100), 10), CRem(CDiv(n, 10), 10), CRem(n, 10)]
  }

  /** The number four decimal digits stand for, thousands first. */
  function Value(d: seq<int>): int
    requires |d| == DigitCount
  {
    d[0] * 1000 + d[1] * 100 + d[2] * 10 + d[3]
  }

  /** The digit identity on Dafny's operators, which agree with C's for
      non-negative values. */
  lemma DecimalDigits(n: int)
    requires n >= 0
    ensures ((n / 1000) % 10) * 1000 + ((n / 100) % 10) * 100 + ((n / 10) % 10) * 10 + n % 10 == n % 10000
  {
    var t, u := n / 10, n % 10;
    var h, c := t / 10, t % 10;
    var k, b := h / 10, h % 10;
    var q, a := k / 10, k % 10;
    assert n == 100 * h + (10 * c + u);
    DivOfSum(h, 10 * c + u, 100);
    assert n == 1000 * k + (100 * b + 10 * c + u);
    DivOfSum(k, 100 * b + 10 * c + u, 1000);
    assert n == 10000 * q + (1000 * a + 100 * b + 10 * c + u);
    DivOfSum(q, 1000 * a + 100 * b + 10 * c + u, 10000);
  }

  /** The decomposition keeps the value modulo 10000: for `0 <= N < 10000`
      the digits spell out N exactly, and a larger N loses only what lies
      above the thousands. */
  lemma DigitsValue(n: int)
    requires n >= 0
    ensures Value(Digits(n)) == n % 10000
    ensures n < 10000 ==> Value(Digits(n)) == n
  {
    assert Digits(n) == [(n / 1000) % 10, (n / 100) % 10, (n / 10) % 10, n % 10];
    DecimalDigits(n);
    if n < 10000 {
      DivOfSum(0, n, 10000);
    }
  }

  /** The value the display routine decomposes, `int dispVal = 0`, gives four
      zero digits, so every position looks up `digitBits[0]`. */
  lemma ZeroDigits()
    ensures Digits(0) == [0, 0, 0, 0]
  {
  }

  /** `bits &= ~0x80`: lights the decimal point (bit 7, active low) and keeps
      the seven segment bits. */
  function ClearDp(b: bv8): (r: bv8)
    ensures !Bit(r, 7)
    ensures forall k :: 0 <= k < 7 ==> Bit(r, k) == Bit(b, k)
  {
    b & !0x80
  }

  /** The pattern sent for `digit` at `pos`: `digitBits[digit]`, with the
      decimal point lit at DP_POS while voltage mode is on. */
  function Pattern(digit: int, pos: int, showVolt: bool): (p: bv8)
    requires 0 <= digit < 10
    ensures p | 0x80 == DigitBits[digit]
    ensures !Bit(p, 7) <==> showVolt && pos == DpPos
  {
    if showVolt && pos == DpPos then ClearDp(DigitBits[digit]) else DigitBits[digit]
  }

  /** No two digits share a segment pattern. */
  lemma DigitBitsDistinct(i: int, j: int)
    requires 0 <= i < 10 && 0 <= j < 10 && i != j
    ensures DigitBits[i] != DigitBits[j]
  {
  }

  /** The first digit at or after `from` whose pattern is `p`. */
  function FindPattern(p: bv8, from: nat): (r: Option<nat>)
    requires from <= 10
    ensures r.Some? ==> from <= r.value < 10 && DigitBits[r.value] == p
    ensures r.None? ==> forall d :: from <= d < 10 ==> DigitBits[d] != p
    decreases 10 - from
  {
    if from == 10 then None
    else if DigitBits[from] == p then Some(from)
    else FindPattern(p, from + 1)
  }

  /** Reads a digit back off the segments it lights, whatever the decimal
      point shows: the inverse of the `digitBits` lookup. */
  function SegmentDigit(p: bv8): (r: Option<nat>)
    ensures r.Some? ==> r.value < 10 && DigitBits[r.value] == p | 0x80
    ensures r.None? ==> forall d :: 0 <= d < 10 ==> DigitBits[d] != p | 0x80
  {
    FindPattern(p | 0x80, 0)
  }

  /** Reading the segments of any pattern the display routine sends gives back
      the digit it was looked up for, with or without the decimal point. */
  lemma {:induction false} SegmentDigitPattern(digit: int, pos: int, showVolt: bool)
    requires 0 <= digit < 10
    ensures SegmentDigit(Pattern(digit, pos, showVolt)) == Some(digit)
  {
    var r := SegmentDigit(Pattern(digit, pos, showVolt));
    if r.Some? && r.value != digit {
      DigitBitsDistinct(r.value, digit);
    }
  }

  /** `digitPos[i]` is `1 << i`: exactly one select line, the i-th, is high. */
  lemma DigitPosOneHot(i: nat)
    requires i < DigitCount
    ensures DigitPos[i] == 1 << i
    ensures forall k :: 0 <= k < 8 ==> (Bit(DigitPos[i], k) <==> k == i)
  {
  }
}
