/** Bytes as the firmware sees them (`uint8_t`, here `bv8`) and their bits in
    the order a shift register receives them. */
module Bits {

  /** Bit `k` of `v`, the level `(v >> k) & 1` puts on a pin. */
  function Bit(v: bv8, k: nat): bool
    requires k < 8
  {
    (v >> k) & 1 == 1
  }

  /** The eight bits of `v` in the order `shiftOutMSBFirst` sends them:
      bit 7 first, bit 0 last. */
  function MsbFirst(v: bv8): (bits: seq<bool>)
    ensures |bits| == 8
  {
    [Bit(v, 7), Bit(v, 6), Bit(v, 5), Bit(v, 4), Bit(v, 3), Bit(v, 2), Bit(v, 1), Bit(v, 0)]
  }

  /** One rising clock edge on an 8-stage shift register holding `v`: every
      stage moves up a place and `level` enters at bit 0. */
  function Push(v: bv8, level: bool): bv8
  {
    (v << 1) | (if level then 1 else 0)
  }

  /** The byte an 8-stage shift register holds once `bits` have been clocked
      in, starting from all zeros: of the last eight bits, the first ends up
      as bit 7. */
  function Assemble(bits: seq<bool>): bv8
  {
    if |bits| == 0 then 0 else Push(Assemble(bits[..|bits| - 1]), bits[|bits| - 1])
  }

  /** The k-th bit sent is bit 7 - k of the byte. */
  lemma MsbFirstAt(v: bv8, k: nat)
    requires k < 8
    ensures MsbFirst(v)[k] == Bit(v, 7 - k)
  {
  }

  /** Clocking in eight bits is eight `Push` steps from zero. */
  lemma {:induction false} AssembleEight(s: seq<bool>)
    requires |s| == 8
    ensures Assemble(s) == Push(Push(Push(Push(Push(Push(Push(Push(0, s[0]), s[1]), s[2]), s[3]), s[4]), s[5]), s[6]), s[7])
  {
    assert s[..1][..0] == [];
    assert Assemble(s[..1]) == Push(0, s[0]);
    assert s[..2][..1] == s[..1];
    assert Assemble(s[..2]) == Push(Assemble(s[..1]), s[1]);
    assert s[..3][..2] == s[..2];
    assert Assemble(s[..3]) == Push(Assemble(s[..2]), s[2]);
    assert s[..4][..3] == s[..3];
    assert Assemble(s[..4]) == Push(Assemble(s[..3]), s[3]);
    assert s[..5][..4] == s[..4];
    assert Assemble(s[..5]) == Push(Assemble(s[..4]), s[4]);
    assert s[..6][..5] == s[..5];
    assert Assemble(s[..6]) == Push(Assemble(s[..5]), s[5]);
    assert s[..7][..6] == s[..6];
    assert Assemble(s[..7]) == Push(Assemble(s[..6]), s[6]);
    assert s[..7] == s[..|s| - 1];
  }

  /** Reassembling the bits sent most significant first gives back the byte. */
  lemma {:induction false} AssembleMsbFirst(v: bv8)
    ensures Assemble(MsbFirst(v)) == v
  {
    AssembleEight(MsbFirst(v));
  }

  /** Conversely, any eight bits are exactly the bits sent for the byte they
      assemble to: the serial form loses nothing. */
  lemma {:induction false} MsbFirstAssemble(bits: seq<bool>)
    requires |bits| == 8
    ensures MsbFirst(Assemble(bits)) == bits
  {
    AssembleEight(bits);
  }
}
