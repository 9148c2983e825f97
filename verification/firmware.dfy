/** The stopwatch firmware: the elapsed-time counter, the voltage-mode flag
    and the display refresh, with the globals of the program gathered in one
    object and its pin writes recorded as a trace. */
module Stopwatch {
  import opened CArith
  import opened Bits
  import opened Segments
  import opened Serial

  /** Elapsed time as minutes and seconds. */
  datatype Time = Time(minutes: int, seconds: int)

  /** The ranges the counters stay in: seconds 0..59, minutes 0..99. */
  predicate ValidTime(t: Time)
  {
    0 <= t.seconds < 60 && 0 <= t.minutes < 100
  }

  /** The time `updateTime` leaves: seconds go up by one and, on reaching 60,
      restart at 0 while minutes go up by one modulo 100. */
  function Tick(t: Time): (r: Time)
    ensures ValidTime(t) ==> ValidTime(r)
  {
    var s := t.seconds + 1;
    if s >= 60 then Time(CRem(t.minutes + 1, 100), 0) else Time(t.minutes, s)
  }

  /** The counter's period in seconds: 100 minutes. */
  const Period: nat := 6000

  /** The seconds a time stands for. */
  function TotalSeconds(t: Time): int
  {
    t.minutes * 60 + t.seconds
  }

  /** A time in range is determined by the seconds it stands for, and those
      are below the period. */
  lemma TotalSecondsInjective(t: Time, u: Time)
    requires ValidTime(t) && ValidTime(u)
    ensures 0 <= TotalSeconds(t) < Period
    ensures TotalSeconds(t) == TotalSeconds(u) ==> t == u
  {
  }

  /** Below 59 seconds a tick adds exactly one second and keeps the minutes;
      from 59 seconds it restarts the seconds and advances the minutes modulo
      100, so that 99:59 is followed by 00:00. */
  lemma TickCases(t: Time)
    requires ValidTime(t)
    ensures t.seconds < 59 ==> Tick(t) == Time(t.minutes, t.seconds + 1)
    ensures t.seconds == 59 ==> Tick(t) == Time((t.minutes + 1) % 100, 0)
    ensures t == Time(99, 59) ==> Tick(t) == Time(0, 0)
  {
  }

  /** A tick is one second on a counter that wraps after 100 minutes. */
  lemma TickCounts(t: Time)
    requires ValidTime(t)
    ensures TotalSeconds(Tick(t)) == (TotalSeconds(t) + 1) % Period
  {
    var x := TotalSeconds(t);
    if t.seconds < 59 {
      assert TotalSeconds(Tick(t)) == x + 1;
      DivOfSum(0, x + 1, Period);
    } else if t.minutes < 99 {
      assert Tick(t) == Time(t.minutes + 1, 0);
      assert TotalSeconds(Tick(t)) == x + 1;
      DivOfSum(0, x + 1, Period);
    } else {
      assert Tick(t) == Time(0, 0);
      DivOfSum(1, 0, Period);
    }
  }

  /** Counting modulo the period one step at a time agrees with counting
      first and reducing once. */
  lemma ModSucc(a: int)
    requires a >= 0
    ensures (a % Period + 1) % Period == (a + 1) % Period
  {
    var q, r := a / Period, a % Period;
    assert a == Period * q + r;
    if r + 1 < Period {
      DivOfSum(q, r + 1, Period);
    } else {
      assert a + 1 == Period * (q + 1) + 0;
      DivOfSum(q + 1, 0, Period);
    }
  }

  /** The time after `n` calls of `updateTime`. */
  function Ticks(t: Time, n: nat): Time
  {
    if n == 0 then t else Tick(Ticks(t, n - 1))
  }

  /** After `n` ticks the counter has advanced by `n` seconds modulo the
      period, and is still in range. */
  lemma {:induction false} TicksCount(t: Time, n: nat)
    requires ValidTime(t)
    ensures ValidTime(Ticks(t, n))
    ensures TotalSeconds(Ticks(t, n)) == (TotalSeconds(t) + n) % Period
  {
    if n > 0 {
      var p := Ticks(t, n - 1);
      TicksCount(t, n - 1);
      assert ValidTime(p) && TotalSeconds(p) == (TotalSeconds(t) + n - 1) % Period;
      TickCounts(p);
      ModSucc(TotalSeconds(t) + n - 1);
    }
  }

  /** Every 6000 ticks the display time comes back to where it was. */
  lemma TicksPeriod(t: Time)
    requires ValidTime(t)
    ensures Ticks(t, Period) == t
  {
    var x := TotalSeconds(t);
    TicksCount(t, Period);
    DivOfSum(1, x, Period);
    assert TotalSeconds(Ticks(t, Period)) == x;
    TotalSecondsInjective(Ticks(t, Period), t);
  }

  /** Pass `i` of `updateDisplay`'s loop: in voltage mode at DP_POS the
      potentiometer is read; then the pattern of digit `i` of `dispVal` and
      the select byte of position `i` are sent. */
  function DisplayPass(dispVal: int, i: nat, showVolt: bool): Pass
    requires dispVal >= 0 && i < DigitCount
  {
    Pass(showVolt && i == DpPos, Pattern(Digits(dispVal)[i], i, showVolt), DigitPos[i])
  }

  /** The four passes of the loop, position 0 first. */
  function DisplayPasses(dispVal: int, showVolt: bool): (ps: seq<Pass>)
    requires dispVal >= 0
    ensures |ps| == DigitCount
  {
    seq(DigitCount, i requires 0 <= i < DigitCount => DisplayPass(dispVal, i, showVolt))
  }

  /** Pass `i` reads the potentiometer exactly at DP_POS in voltage mode,
      sends `digitBits` of digit `i` with the decimal point cleared exactly
      then, and selects position `i`. */
  lemma DisplayPassAt(dispVal: int, showVolt: bool, i: nat)
    requires dispVal >= 0 && i < DigitCount
    ensures var p := DisplayPasses(dispVal, showVolt)[i];
      var b := DigitBits[Digits(dispVal)[i]];
      p.sample == (showVolt && i == DpPos) && p.digit == DigitPos[i] &&
      p.bits == (if p.sample then ClearDp(b) else b)
  {
  }

  /** One call of `updateDisplay` when it decomposes `dispVal`. */
  function DisplayEvents(dispVal: int, showVolt: bool): seq<Event>
    requires dispVal >= 0
  {
    PassesEvents(DisplayPasses(dispVal, showVolt))
  }

  /** What one display refresh puts on the outputs: four words, one per
      position in order, each showing the segment pattern of that digit of
      `dispVal` (decimal point lit only at DP_POS in voltage mode) and
      selecting exactly that position; and reading the segments back gives
      the digits, so the display spells `dispVal` modulo 10000. */
  lemma DisplayShows(d: Device, dispVal: int, showVolt: bool)
    requires !d.clock && |d.stages| == Stages && dispVal >= 0
    ensures var r := Run(d, DisplayEvents(dispVal, showVolt));
      var k := |d.latched|;
      |r.latched| == k + DigitCount && r.latched[..k] == d.latched &&
      var ws := r.latched[k..];
      forall i :: 0 <= i < DigitCount ==>
        |ws[i]| == Stages &&
        Shown(ws[i]) == (Pattern(Digits(dispVal)[i], i, showVolt), DigitPos[i]) &&
        SegmentDigit(Shown(ws[i]).0) == Some(Digits(dispVal)[i])
  {
    var digits := Digits(dispVal);
    var ps := DisplayPasses(dispVal, showVolt);
    RunPasses(d, ps);
    var ws := Words(ps);
    var r := Run(d, DisplayEvents(dispVal, showVolt));
    assert r.latched[|d.latched|..] == ws;
    forall i | 0 <= i < DigitCount
      ensures |ws[i]| == Stages
      ensures Shown(ws[i]) == (Pattern(digits[i], i, showVolt), DigitPos[i])
      ensures SegmentDigit(Pattern(digits[i], i, showVolt)) == Some(digits[i])
    {
      WordsAt(ps, i);
      var w := ws[i];
      assert w[..8] == MsbFirst(Pattern(digits[i], i, showVolt));
      assert w[8..] == MsbFirst(DigitPos[i]);
      AssembleMsbFirst(Pattern(digits[i], i, showVolt));
      AssembleMsbFirst(DigitPos[i]);
      SegmentDigitPattern(digits[i], i, showVolt);
    }
  }

  /** The byte sent for the digit 0: 0xC0, or 0x40 with the decimal point
      lit at DP_POS in voltage mode. */
  lemma ZeroPattern(i: nat, showVolt: bool)
    ensures Pattern(0, i, showVolt) == if showVolt && i == DpPos then 0x40 else 0xC0
  {
  }

  /** A refresh of a value whose four digits are all 0 shows the pattern of
      0 at every position, with the decimal point lit only at DP_POS in
      voltage mode. */
  lemma DisplayZeroDigits(d: Device, n: int, showVolt: bool)
    requires !d.clock && |d.stages| == Stages && n >= 0 && Digits(n) == [0, 0, 0, 0]
    ensures var r := Run(d, DisplayEvents(n, showVolt));
      |r.latched| == |d.latched| + DigitCount &&
      var ws := r.latched[|d.latched|..];
      forall i :: 0 <= i < DigitCount ==>
        |ws[i]| == Stages &&
        Shown(ws[i]).0 == (if showVolt && i == DpPos then 0x40 else 0xC0)
  {
    DisplayShows(d, n, showVolt);
    forall i | 0 <= i < DigitCount {
      ZeroPattern(i, showVolt);
    }
  }

  /** The refresh as written, with `dispVal` still 0 when the digits are
      computed: every position shows the pattern of 0, and in voltage mode
      position DP_POS shows it with the decimal point lit. */
  lemma DisplayZero(d: Device, showVolt: bool)
    requires !d.clock && |d.stages| == Stages
    ensures var r := Run(d, DisplayEvents(0, showVolt));
      |r.latched| == |d.latched| + DigitCount &&
      var ws := r.latched[|d.latched|..];
      forall i :: 0 <= i < DigitCount ==>
        |ws[i]| == Stages &&
        Shown(ws[i]).0 == (if showVolt && i == DpPos then 0x40 else 0xC0)
  {
    ZeroDigits();
    DisplayZeroDigits(d, 0, showVolt);
  }

  /** The program's globals: the counters, the mode flag, and the pins, whose
      writes are recorded in order. */
  class Firmware {
    var seconds: int
    var minutes: int
    var showVolt: bool
    /** Every pin write and potentiometer read so far, oldest first. */
    var trace: seq<Event>

    /** The counters as a time. */
    function Now(): Time
      reads this
    {
      Time(minutes, seconds)
    }

    /** The class invariant: both counters in range. */
    ghost predicate Valid()
      reads this
    {
      ValidTime(Now())
    }

    /** Program start: `seconds = 0, minutes = 0`, `showVolt = false`, no pin
        written yet. */
    constructor ()
      ensures Valid() && Now() == Time(0, 0) && !showVolt && trace == []
    {
      seconds, minutes := 0, 0;
      showVolt := false;
      trace := [];
    }

    /** `shiftOutMSBFirst(value)`: for i from 7 down to 0, put bit i on the
        data pin and pulse the clock. */
    method ShiftOutMsbFirst(value: bv8)
      modifies this`trace
      ensures trace == old(trace) + ByteEvents(value)
    {
      var i: int := 7;
      while i >= 0
        invariant -1 <= i <= 7
        invariant trace == old(trace) + ShiftEvents(MsbFirst(value)[..7 - i])
      {
        ghost var sent := MsbFirst(value)[..8 - i];
        assert sent[..|sent| - 1] == MsbFirst(value)[..7 - i];
        MsbFirstAt(value, 7 - i);
        trace := trace + [Data(Bit(value, i))];
        trace := trace + [Clock(true)];
        trace := trace + [Clock(false)];
        i := i - 1;
      }
      assert MsbFirst(value)[..8] == MsbFirst(value);
    }

    /** `writeToShiftRegister(bits, digit)`: latch low, both bytes, latch
        high. */
    method WriteToShiftRegister(bits: bv8, digit: bv8)
      modifies this`trace
      ensures trace == old(trace) + FrameEvents(bits, digit)
    {
      trace := trace + [Latch(false)];
      ShiftOutMsbFirst(bits);
      ShiftOutMsbFirst(digit);
      trace := trace + [Latch(true)];
    }

    /** `updateTime`, run by the one-second ticker. */
    method UpdateTime()
      requires Valid()
      modifies this`seconds, this`minutes
      ensures Valid() && Now() == Tick(old(Now()))
    {
      seconds := seconds + 1;
      if seconds >= 60 {
        seconds := 0;
        minutes := CRem(minutes + 1, 100);
      }
    }

    /** `updateDisplay`, run by the 4 ms ticker: the digits of `dispVal`,
        which is 0 at that point, sent position by position; the
        potentiometer read at DP_POS in voltage mode is the `Sample` event. */
    method UpdateDisplay()
      modifies this`trace
      ensures trace == old(trace) + DisplayEvents(0, showVolt)
    {
      var dispVal := 0;
      var digits := Digits(dispVal);
      ghost var passes := DisplayPasses(dispVal, showVolt);
      ZeroDigits();
      for i := 0 to DigitCount
        invariant trace == old(trace) + PassesEvents(passes[..i])
      {
        DisplayPassAt(dispVal, showVolt, i);
        ghost var before := trace;
        var bits := DigitBits[digits[i]];
        if showVolt && i == DpPos {
          bits := ClearDp(bits);
          trace := trace + [Sample];
        } else {
          assert trace == before + [];
        }
        ghost var pre := trace;
        assert bits == passes[i].bits;
        WriteToShiftRegister(bits, DigitPos[i]);
        PassAppended(old(trace), passes, i, before, pre, trace);
      }
      assert passes[..DigitCount] == passes;
      assert DisplayEvents(dispVal, showVolt) == PassesEvents(passes);
    }

    /** `resetTimeISR`, on the rising edge of the reset button: both counters
        to zero, from any values. */
    method ResetTimeIsr()
      modifies this`seconds, this`minutes
      ensures Valid() && Now() == Time(0, 0)
    {
      seconds := 0;
      minutes := 0;
    }

    /** `toggleVoltModeISR`, when the mode button goes down: voltage mode
        on. */
    method ToggleVoltModeIsr()
      requires Valid()
      modifies this`showVolt
      ensures Valid() && showVolt
    {
      showVolt := true;
    }

    /** `releaseVoltModeISR`, when the mode button comes up: voltage mode
        off. */
    method ReleaseVoltModeIsr()
      requires Valid()
      modifies this`showVolt
      ensures Valid() && !showVolt
    {
      showVolt := false;
    }
  }

  /** The handlers in use: pressing the mode button twice leaves the same
      state as pressing it once, neither mode handler moves the counters, and
      reset clears them whatever they were. */
  method HandlerScenario(fw: Firmware)
    requires fw.Valid()
    modifies fw
  {
    var t := fw.Now();
    fw.ToggleVoltModeIsr();
    var once := fw.showVolt;
    fw.ToggleVoltModeIsr();
    assert fw.showVolt == once && fw.Now() == t;
    fw.ReleaseVoltModeIsr();
    fw.ReleaseVoltModeIsr();
    assert !fw.showVolt && fw.Now() == t;
    fw.UpdateTime();
    fw.ResetTimeIsr();
    assert fw.Now() == Time(0, 0) && !fw.showVolt;
  }
}
