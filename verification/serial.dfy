/** The bit-banged link to the display's shift registers: the pin writes the
    firmware makes, and a model of the two daisy-chained 74HC595 registers
    that receive them, which serves as the deserialiser. */
module Serial {
  import opened Bits

  /** One observable action of the firmware: a write to the data, clock or
      latch pin, or the analog read of the potentiometer, whose value is not
      modelled. */
  datatype Event = Data(high: bool) | Clock(high: bool) | Latch(high: bool) | Sample

  /** One iteration of `shiftOutMSBFirst`'s loop: set the data pin, then pulse
      the clock high and low. */
  function BitEvents(level: bool): seq<Event>
  {
    [Data(level), Clock(true), Clock(false)]
  }

  /** The pin writes that send `bits` one after the other. */
  function ShiftEvents(bits: seq<bool>): (es: seq<Event>)
    ensures |es| == 3 * |bits|
  {
    if |bits| == 0 then [] else ShiftEvents(bits[..|bits| - 1]) + BitEvents(bits[|bits| - 1])
  }

  /** The pin writes of `shiftOutMSBFirst(v)`. */
  function ByteEvents(v: bv8): seq<Event>
  {
    ShiftEvents(MsbFirst(v))
  }

  /** The pin writes of `writeToShiftRegister(bits, digit)`: latch low, the
      segment byte, the digit-select byte, latch high. */
  function FrameEvents(bits: bv8, digit: bv8): seq<Event>
  {
    [Latch(false)] + ByteEvents(bits) + ByteEvents(digit) + [Latch(true)]
  }

  /** Bit k of a serial transmission is three writes starting at 3k: its data
      level, clock high, clock low. */
  lemma {:induction false} ShiftEventsAt(bits: seq<bool>, k: nat)
    requires k < |bits|
    ensures ShiftEvents(bits)[3 * k] == Data(bits[k])
    ensures ShiftEvents(bits)[3 * k + 1] == Clock(true)
    ensures ShiftEvents(bits)[3 * k + 2] == Clock(false)
  {
    var n := |bits| - 1;
    if k < n {
      ShiftEventsAt(bits[..n], k);
    }
  }

  /** `shiftOutMSBFirst(v)` makes exactly 8 data writes, each followed by one
      clock pulse, and the k-th data write carries bit 7 - k of `v`. */
  lemma ByteEventsShape(v: bv8)
    ensures |ByteEvents(v)| == 24
    ensures forall k :: 0 <= k < 8 ==>
      ByteEvents(v)[3 * k] == Data(Bit(v, 7 - k)) &&
      ByteEvents(v)[3 * k + 1] == Clock(true) &&
      ByteEvents(v)[3 * k + 2] == Clock(false)
  {
    var bits := MsbFirst(v);
    assert ByteEvents(v) == ShiftEvents(bits) && |bits| == 8;
    forall k | 0 <= k < 8
      ensures ByteEvents(v)[3 * k] == Data(Bit(v, 7 - k))
      ensures ByteEvents(v)[3 * k + 1] == Clock(true)
      ensures ByteEvents(v)[3 * k + 2] == Clock(false)
    {
      ShiftEventsAt(bits, k);
      MsbFirstAt(v, k);
    }
  }

  /** Sending two bit strings in turn is sending their concatenation. */
  lemma {:induction false} ShiftEventsConcat(a: seq<bool>, b: seq<bool>)
    ensures ShiftEvents(a + b) == ShiftEvents(a) + ShiftEvents(b)
    decreases |b|
  {
    if |b| == 0 {
      assert a + b == a;
    } else {
      var n := |b| - 1;
      assert (a + b)[..|a + b| - 1] == a + b[..n];
      ShiftEventsConcat(a, b[..n]);
    }
  }

  /** A frame is latch low, then 16 bits (the segment byte followed by the
      digit-select byte) with one clock pulse each, then latch high; the latch
      pin is not touched in between. */
  lemma FrameShape(bits: bv8, digit: bv8)
    ensures FrameEvents(bits, digit) == [Latch(false)] + ShiftEvents(MsbFirst(bits) + MsbFirst(digit)) + [Latch(true)]
    ensures |FrameEvents(bits, digit)| == 50
    ensures forall i :: 0 < i < 49 ==> !FrameEvents(bits, digit)[i].Latch?
  {
    ShiftEventsConcat(MsbFirst(bits), MsbFirst(digit));
    var w := MsbFirst(bits) + MsbFirst(digit);
    forall i | 0 < i < 49
      ensures !FrameEvents(bits, digit)[i].Latch?
    {
      ShiftEventsAt(w, (i - 1) / 3);
    }
  }

  /** Number of stages in the two daisy-chained 8-bit shift registers. */
  const Stages: nat := 16

  /** The receiving registers: the last levels seen on the data, clock and
      latch pins, the shift stages (index 0 is the far end of the chain, which
      the first bit sent reaches after 16 clocks), and every word copied to
      the outputs so far, in order. */
  datatype Device = Device(data: bool, clock: bool, latch: bool, stages: seq<bool>, latched: seq<seq<bool>>)

  /** How the registers react to one event: a rising clock edge shifts the
      data level in, a rising latch edge copies the stages to the outputs. */
  function Step(d: Device, e: Event): (r: Device)
    ensures |r.stages| == |d.stages|
  {
    match e
    case Data(h) => d.(data := h)
    case Clock(h) =>
      if h && !d.clock then d.(clock := true, stages := (d.stages + [d.data])[1..])
      else d.(clock := h)
    case Latch(h) =>
      if h && !d.latch then d.(latch := true, latched := d.latched + [d.stages])
      else d.(latch := h)
    case Sample => d
  }

  /** The registers after a whole trace of events. */
  function Run(d: Device, es: seq<Event>): (r: Device)
    ensures |r.stages| == |d.stages|
    decreases |es|
  {
    if |es| == 0 then d else Run(Step(d, es[0]), es[1..])
  }

  /** Running two traces in turn is running their concatenation. */
  lemma {:induction false} RunConcat(d: Device, a: seq<Event>, b: seq<Event>)
    ensures Run(d, a + b) == Run(Run(d, a), b)
    decreases |a|
  {
    if |a| == 0 {
      assert a + b == b;
    } else {
      assert (a + b)[1..] == a[1..] + b;
      RunConcat(Step(d, a[0]), a[1..], b);
    }
  }

  /** With the clock low, sending `bits` shifts each of them in once and
      leaves the clock low; the latch and the outputs are untouched. */
  lemma {:induction false} RunShift(d: Device, bits: seq<bool>)
    requires !d.clock
    ensures var r := Run(d, ShiftEvents(bits));
      !r.clock && r.latch == d.latch && r.latched == d.latched &&
      r.stages == (d.stages + bits)[|bits|..]
    decreases |bits|
  {
    if |bits| == 0 {
      assert d.stages + bits == d.stages;
    } else {
      var n := |bits| - 1;
      var init, last := bits[..n], bits[n];
      RunShift(d, init);
      var m := Run(d, ShiftEvents(init));
      RunConcat(d, ShiftEvents(init), BitEvents(last));
      var e := BitEvents(last);
      assert Run(m, e) == Run(Step(Step(Step(m, e[0]), e[1]), e[2]), []) by {
        assert e[1..][1..][1..] == [];
      }
      assert (m.stages + [last])[1..] == (d.stages + bits)[|bits|..] by {
        assert m.stages == (d.stages + init)[n..];
        assert d.stages + bits == (d.stages + init) + [last];
      }
    }
  }

  /** The word a frame latches: the bits of the segment byte, then those of
      the digit-select byte. */
  function FrameWord(bits: bv8, digit: bv8): (w: seq<bool>)
    ensures |w| == Stages
  {
    MsbFirst(bits) + MsbFirst(digit)
  }

  /** A frame sent to registers whose clock is low latches exactly one word,
      the 16 bits of the segment byte followed by the digit-select byte, and
      leaves the clock low and the latch high. */
  lemma RunFrame(d: Device, bits: bv8, digit: bv8)
    requires !d.clock && |d.stages| == Stages
    ensures var r := Run(d, FrameEvents(bits, digit));
      r.latched == d.latched + [FrameWord(bits, digit)] &&
      r.stages == FrameWord(bits, digit) && !r.clock && r.latch
  {
    var w := MsbFirst(bits) + MsbFirst(digit);
    FrameShape(bits, digit);
    var d1 := Step(d, Latch(false));
    assert Run(d, [Latch(false)]) == d1;
    RunShift(d1, w);
    var d2 := Run(d1, ShiftEvents(w));
    assert d2.stages == w;
    assert Run(d2, [Latch(true)]) == Step(d2, Latch(true));
    RunConcat(d, [Latch(false)], ShiftEvents(w));
    RunConcat(d, [Latch(false)] + ShiftEvents(w), [Latch(true)]);
  }

  /** The two bytes a latched word puts on the outputs: the far register's
      (the first byte sent) and the near register's. */
  function Shown(word: seq<bool>): (bv8, bv8)
    requires |word| == Stages
  {
    (Assemble(word[..8]), Assemble(word[8..]))
  }

  /** The serialise/deserialise round trip: after `writeToShiftRegister(bits,
      digit)` the far register shows `bits` and the near one `digit`. */
  lemma FrameRoundTrip(d: Device, bits: bv8, digit: bv8)
    requires !d.clock && |d.stages| == Stages
    ensures var r := Run(d, FrameEvents(bits, digit));
      |r.latched| == |d.latched| + 1 && r.latched[..|d.latched|] == d.latched &&
      |r.latched[|d.latched|]| == Stages && Shown(r.latched[|d.latched|]) == (bits, digit)
  {
    RunFrame(d, bits, digit);
    var w := MsbFirst(bits) + MsbFirst(digit);
    assert w[..8] == MsbFirst(bits) && w[8..] == MsbFirst(digit);
    AssembleMsbFirst(bits);
    AssembleMsbFirst(digit);
  }

  /** One pass of the display loop as the registers see it: possibly a
      potentiometer read, then one frame. */
  datatype Pass = Pass(sample: bool, bits: bv8, digit: bv8)

  /** The events of one pass. */
  function PassEvents(p: Pass): seq<Event>
  {
    (if p.sample then [Sample] else []) + FrameEvents(p.bits, p.digit)
  }

  /** The events of several passes, in order. */
  function PassesEvents(ps: seq<Pass>): seq<Event>
  {
    if |ps| == 0 then [] else PassesEvents(ps[..|ps| - 1]) + PassEvents(ps[|ps| - 1])
  }

  /** The words the passes latch, one each, in order. */
  function Words(ps: seq<Pass>): (ws: seq<seq<bool>>)
    ensures |ws| == |ps|
  {
    if |ps| == 0 then [] else Words(ps[..|ps| - 1]) + [FrameWord(ps[|ps| - 1].bits, ps[|ps| - 1].digit)]
  }

  /** Word `i` is the frame word of pass `i`. */
  lemma {:induction false} WordsAt(ps: seq<Pass>, i: nat)
    requires i < |ps|
    ensures Words(ps)[i] == FrameWord(ps[i].bits, ps[i].digit)
  {
    var n := |ps| - 1;
    if i < n {
      WordsAt(ps[..n], i);
    }
  }

  /** One pass latches its frame's word and leaves the clock low; the
      potentiometer read does not disturb the registers. */
  lemma RunPass(m: Device, p: Pass)
    requires !m.clock && |m.stages| == Stages
    ensures var r := Run(m, PassEvents(p));
      !r.clock && r.latched == m.latched + [FrameWord(p.bits, p.digit)]
  {
    var pre: seq<Event> := if p.sample then [Sample] else [];
    RunConcat(m, pre, FrameEvents(p.bits, p.digit));
    assert Run(m, pre) == m by {
      if p.sample {
        assert Run(m, pre) == Run(Step(m, Sample), []);
      }
    }
    RunFrame(m, p.bits, p.digit);
  }

  /** A sequence of passes latches exactly its words, in order, and leaves
      the clock low. */
  lemma {:induction false} RunPasses(d: Device, ps: seq<Pass>)
    requires !d.clock && |d.stages| == Stages
    ensures var r := Run(d, PassesEvents(ps));
      !r.clock && r.latched == d.latched + Words(ps)
    decreases |ps|
  {
    if |ps| == 0 {
      assert d.latched + Words(ps) == d.latched;
    } else {
      var n := |ps| - 1;
      var before := PassesEvents(ps[..n]);
      assert PassesEvents(ps) == before + PassEvents(ps[n]);
      var m := Run(d, before);
      RunConcat(d, before, PassEvents(ps[n]));
      RunPasses(d, ps[..n]);
      RunPass(m, ps[n]);
      var ws, w := Words(ps[..n]), FrameWord(ps[n].bits, ps[n].digit);
      assert Words(ps) == ws + [w];
      assert (d.latched + ws) + [w] == d.latched + (ws + [w]);
    }
  }

  /** One more pass adds that pass's events at the end. */
  lemma PassesStep(ps: seq<Pass>, i: nat)
    requires i < |ps|
    ensures PassesEvents(ps[..i + 1]) == PassesEvents(ps[..i]) + PassEvents(ps[i])
  {
    assert ps[..i + 1][..i] == ps[..i];
  }

  /** A trace that held the first `i` passes and then received the optional
      read and the frame of pass `i` holds the first `i + 1` passes. */
  lemma PassAppended(start: seq<Event>, ps: seq<Pass>, i: nat, t0: seq<Event>, t1: seq<Event>, t2: seq<Event>)
    requires i < |ps|
    requires t0 == start + PassesEvents(ps[..i])
    requires t1 == t0 + (if ps[i].sample then [Sample] else [])
    requires t2 == t1 + FrameEvents(ps[i].bits, ps[i].digit)
    ensures t2 == start + PassesEvents(ps[..i + 1])
  {
    PassesStep(ps, i);
  }
}
