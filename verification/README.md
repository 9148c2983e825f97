# Stopwatch firmware for a 4-digit 7-segment shield, modelled in Dafny

The firmware (`main.cpp`) runs on a NUCLEO-F401RE board fitted with a
multifunction shield. A one-second ticker advances a minutes:seconds
stopwatch. A 4 ms ticker refreshes the display by bit-banging two
daisy-chained shift registers. One button resets the time. A second button
switches a voltage mode on while it is held down and off when it is released.

The model has four modules, one per concern of the program:

- `CArith` (`carith.dfy`): C's truncating `/` and `%` on `int`, which the
  firmware uses for the minutes wrap and the digit decomposition.
- `Bits` (`bits.dfy`): bytes as `bv8`, their bits in the order
  `shiftOutMSBFirst` sends them (most significant first), and `Assemble`,
  the byte an 8-stage shift register holds after receiving them.
- `Segments` (`segments.dfy`): the `digitBits` and `digitPos` tables,
  `DP_POS`, the decomposition of a value into `digits[4]`, the decimal-point
  mask `bits &= ~0x80`, and `SegmentDigit`, which reads a digit back from its
  segment pattern.
- `Serial` (`serial.dfy`): the pin writes as a trace of `Event`s (data,
  clock and latch levels, plus an opaque `Sample` for the potentiometer
  read). The trace of each routine is a function: `ByteEvents`,
  `FrameEvents`, `PassesEvents`. `Device` models the two 74HC595 registers
  on the shield, which receive the trace: a rising clock edge shifts the
  data level in, and a rising latch edge copies the 16 stages to the
  outputs. Running a trace through `Device` deserialises it, which gives the
  round trips.
- `Stopwatch` (`firmware.dfy`): the time arithmetic (`Tick`, `Ticks`) and
  the display refresh as passes (`DisplayPasses`, `DisplayEvents`). The class
  `Firmware` holds the program's globals `seconds`, `minutes` and
  `showVolt` plus the pin trace. It has one method per routine. The
  invariant `Valid()` is `0 <= seconds < 60 && 0 <= minutes < 100`.

`updateDisplay` is modelled as written. `dispVal` is 0 when `digits` is
computed. The later assignment `dispVal = voltage * 100` (main.cpp:146) is
never read, so every refresh shows the pattern of 0 at all four positions,
and in voltage mode position `DP_POS` (1) also lights its decimal point
(`DisplayZero`). The general lemma `DisplayShows` states what a refresh would
show for any non-negative value. The comment above `updateDisplay`
(main.cpp:124) says the routine shows the current time or the voltage. The
code shows neither, and the model follows the code.

Interrupt handlers and tickers are modelled as method calls that run
atomically, one after another.

## Model

| member | source | states |
|---|---|---|
| `CArith.CDivTruncates` | main.cpp:133-135 | C's `/` for a positive divisor truncates toward zero: for `a >= 0`, `b * (a / b) <= a < b * (a / b) + b`; for `a < 0`, `b * (a / b) - b < a <= b * (a / b)` |
| `CArith.CRem` | main.cpp:117 | C's `%` for a positive divisor: `a == b * (a / b) + a % b` with the truncating quotient, the remainder lies strictly between `-b` and `b` and has the dividend's sign, and it equals Dafny's `%` for `a >= 0` |
| `Bits.AssembleMsbFirst` | main.cpp:79-86 | reassembling the 8 bits sent, most significant first, gives back the byte |
| `Bits.MsbFirstAssemble` | main.cpp:79-86 | conversely, any 8 bits are the bits sent for the byte they assemble to, so the serial form of a byte is a bijection |
| `Segments.Digits` | main.cpp:132-137 | `digits[4]` has four entries, and for a non-negative value each is in 0..9, so the `digitBits` index is in bounds |
| `Segments.DigitsValue` | main.cpp:132-137 | `d0*1000 + d1*100 + d2*10 + d3 == N % 10000` for every `N >= 0`, and `== N` when `N < 10000` |
| `Segments.ZeroDigits` | main.cpp:130-137 | with `dispVal = 0`, as written, all four digits are 0, so every position looks up `digitBits[0]` |
| `Segments.ClearDp` | main.cpp:142 | `bits &= ~0x80` clears bit 7 (lights the decimal point) and keeps bits 0 to 6 |
| `Segments.Pattern` | main.cpp:140-142 | the byte sent for a digit has the segments of `digitBits[digit]`, and its decimal point is lit exactly when `showVolt` holds and the position is `DP_POS` |
| `Segments.DigitBitsDistinct` | main.cpp:20-31 | no two digits share a segment pattern |
| `Segments.SegmentDigit` | main.cpp:20-31 | the inverse of the table lookup: it returns the digit whose pattern matches the segments, ignoring the decimal point, or `None` when no digit matches |
| `Segments.SegmentDigitPattern` | main.cpp:140-142 | reading back the segments of any pattern the refresh sends gives the digit it was looked up for, with or without the decimal point |
| `Segments.DigitPosOneHot` | main.cpp:32 | `digitPos[i] == 1 << i`: exactly one select line, the i-th, is high |
| `Serial.ShiftEventsAt` | main.cpp:81-85 | bit k of a transmission is three writes starting at index 3k: its data level, clock high, clock low |
| `Serial.ByteEventsShape` | main.cpp:79-86 | `shiftOutMSBFirst(v)` makes exactly 24 writes: 8 data writes, each followed by one clock pulse, the k-th carrying bit `7 - k` of `v` |
| `Serial.ShiftEventsConcat` | main.cpp:101-102 | sending two bit strings one after the other is the same trace as sending their concatenation |
| `Serial.FrameShape` | main.cpp:98-104 | `writeToShiftRegister` writes latch low, then the 16 bits of `bits` followed by `digit` with one clock pulse each, then latch high, and no latch write in between (50 writes in all) |
| `Serial.RunShift` | main.cpp:79-86 | with the clock low, the registers shift each bit sent in exactly once and end with the clock low; the latch and the outputs do not change |
| `Serial.RunFrame` | main.cpp:98-104 | a frame latches exactly one new word, the 16 bits of `bits` followed by `digit`, and leaves the clock low and the latch high |
| `Serial.FrameRoundTrip` | main.cpp:98-104 | the serialise/deserialise round trip: after a frame, the far register shows `bits` and the near register shows `digit`, and earlier outputs are kept |
| `Serial.RunPass` | main.cpp:141-148 | one display pass latches its frame's word; the potentiometer read does not disturb the registers |
| `Serial.RunPasses` | main.cpp:139-150 | a sequence of passes latches exactly its words, in order, and leaves the clock low |
| `Stopwatch.Tick` | main.cpp:112-119 | `updateTime` keeps the counters in range: seconds 0..59, minutes 0..99 |
| `Stopwatch.TickCases` | main.cpp:114-118 | below 59 seconds, seconds go up by exactly one and minutes stay the same; from 59 seconds, seconds become 0 and minutes become `(minutes + 1) % 100`, so 99:59 is followed by 00:00 |
| `Stopwatch.TickCounts` | main.cpp:112-119 | one tick is one second on a counter of period 6000 s: `60*m + s` becomes `(60*m + s + 1) % 6000` |
| `Stopwatch.TicksCount` | main.cpp:112-119 | after `n` ticks the time is still in range and has advanced by `n` seconds modulo 6000 |
| `Stopwatch.TicksPeriod` | main.cpp:115-118 | 6000 ticks bring the stopwatch back to the same time |
| `Stopwatch.DisplayShows` | main.cpp:128-151 | a refresh of a value `N >= 0` latches four words, one per position in order; word i shows `Pattern(digit i of N, i, showVolt)` and selects `digitPos[i]`, and reading the segments back gives digit i of N |
| `Stopwatch.DisplayZeroDigits` | main.cpp:139-148 | a refresh of any value whose four digits are 0 shows `0xC0` at every position, except `0x40` at `DP_POS` in voltage mode |
| `Stopwatch.DisplayZero` | main.cpp:130-148 | the refresh as written shows `0xC0` (the digit 0) at every position, except `0x40` (0 with the decimal point lit) at `DP_POS` in voltage mode |
| `Stopwatch.Firmware.constructor` | main.cpp:49-50 | start-up state: 00:00, voltage mode off, invariant established, no pin written |
| `Stopwatch.Firmware.ShiftOutMsbFirst` | main.cpp:79-86 | the loop from `i = 7` down to 0 appends exactly `ByteEvents(value)` to the pin trace and changes nothing else |
| `Stopwatch.Firmware.WriteToShiftRegister` | main.cpp:98-104 | appends exactly `FrameEvents(bits, digit)` to the pin trace |
| `Stopwatch.Firmware.UpdateTime` | main.cpp:112-119 | keeps the invariant; the new time is `Tick` of the old; only the two counters change |
| `Stopwatch.Firmware.UpdateDisplay` | main.cpp:128-151 | the loop over the four positions appends exactly `DisplayEvents(0, showVolt)` to the pin trace; the counters and the mode are not changed |
| `Stopwatch.Firmware.ResetTimeIsr` | main.cpp:165-169 | from any counter values, the time becomes 00:00 and the invariant holds; `showVolt` is untouched, since the frame allows only the counters to change |
| `Stopwatch.Firmware.ToggleVoltModeIsr` | main.cpp:176-179 | `showVolt` becomes true whatever it was, so a second call changes nothing; the frame allows only `showVolt` to change, so the counters and the trace stay as they were |
| `Stopwatch.Firmware.ReleaseVoltModeIsr` | main.cpp:186-189 | `showVolt` becomes false whatever it was, so the handler is idempotent; only `showVolt` may change |

## Left out

- The voltage measurement (main.cpp:143-146): `pot.read() * VREF`, the `fmin`/`fmax` tracking of `minVoltage`/`maxVoltage` and `dispVal = voltage * 100` are floating point work on a foreign analog read. The read appears only as the opaque `Sample` event, at the point in the pass where it happens. The claim that the minimum never rises and the maximum never falls is not modelled.
- Stopwatch.Firmware.UpdateDisplay: does not model the assignment to `dispVal` at main.cpp:146. That value is never read afterwards, so the trace is the same either way.
- The global `currentDigit` (main.cpp:51) is declared and never used.
- mbed objects and wiring: `DigitalOut`, `InterruptIn`, `AnalogIn`, `Ticker`, the `rise`/`fall`/`attach` registration and `main`'s idle loop (main.cpp:36-47, 199-214). This is I/O plumbing. Pin writes appear only as trace events, and each handler is a method that callers invoke.
- Timing: the `ThisThread::sleep_for` delays (main.cpp:149, 212) and the 1 s and 4 ms periods do not change any modelled state.
- Concurrency: `volatile` access shared between interrupt and ticker contexts, and any race between `updateTime` and `resetTimeISR`, are out of scope. Every handler call runs atomically, one at a time.
- Integer width: `seconds` and `minutes` are C `int`. Under the invariant they never get near overflow, so the model uses unbounded integers.
- The 74HC595 pair is a part on the shield, not code of the program. The lemmas that run a trace through `Device` assume the clock line starts low. That holds at power-up (a `DigitalOut` starts at 0) and after every frame (`RunFrame` proves it).
