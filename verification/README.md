# MPR121 touch debounce, modelled in Dafny

A model of the touch-detection core of the `MPR121Manager` class, which sits
on a 12-electrode capacitive sensor board. On every `update` each active port
takes the sensor's filtered reading and runs it through an exponential
smoothing filter (alpha = 0.6). It clamps the result to the port's
`[minValue, maxValue]` and compares it with the port's threshold. The
comparison direction depends on whether the port is currently touched. A
consecutive-cycle counter then decides whether the port changes state. A
change fires when the counter is strictly greater than the judge count for the
current state. On a change, the threshold is re-anchored: `margin` away from
the reading of that cycle. The class also provides a guarded `isTouched`
query, six tuning setters and a constructor that starts every active port
released.

Files and modules:

- `config.dfy`, module `Config`: field widths (`uint8`, `uint16`), the port
  count, alpha, the default constructor arguments, and the mask-bit reading
  used by every guard.
- `channel.dfy`, module `TouchChannel`: one port as a `Channel` value. It
  covers the filter, Arduino's `constrain`, the hysteresis test, the 8-bit
  counter, threshold anchoring, one `Step` of `update`, and the constructor
  defaults.
- `bank.dfy`, module `ChannelBank`: the twelve-port object. It has the
  constructor (`Init`), `update` (`Cycle`, plus `Update`, which follows the
  source's loop), `isTouched`, the six setters, and the packed
  `currentTouched` word (`TouchedMask`). It also holds the lemmas about
  those operations.
- `debounce.dfy`, module `Debounce`: one port over a sequence of cycles. It
  proves the clamp, the strictly consecutive streak a transition needs, the
  streak that makes one fire, and that a judge count of 255 never fires.
- `scenario.dfy`, module `Scenario`: a worked run with the constructor
  defaults. The first reading is 650 and every later reading is 600. The
  port turns touched on cycle 17. A single non-qualifying cycle wipes out a
  ten-cycle streak.

Modelling choices:

- Readings and thresholds are `float` in the source and exact `real` here,
  with alpha = 3/5.
- The counter and judge counts are `uint8_t`, so `counter++` wraps from 255
  to 0 (`Inc8`). The margins are stored as `uint16_t` but are set through
  `uint8_t` parameters. The bounds are `uint16_t`.
- The sensor read `cap.filteredData(i)` becomes an input: a sequence of
  twelve `uint16` readings per cycle. Entries for inactive ports are never
  read.
- Each channel stores its own touched bit. The source's packed
  `currentTouched` word is derived from those bits (`TouchedMask`). It is
  proved to agree bit for bit with `isTouched`, and with the XOR toggle that
  `update` applies.
- The source reads a mask bit in two ways: `(activePort >> i) & 1` in the
  loops and `activePort & (1 << port)` in the guards. For `i < 16` both are
  bit `i` of the mask, and the model reads both with one definition
  (`BitSet`: halve `i` times, take the parity).
- Alpha is a constant (`Config.Alpha`), so no operation can change it.
- Arduino's `constrain(x, lo, hi)` is the macro
  `x < lo ? lo : (x > hi ? hi : x)`. Nothing orders `lo` and `hi`.

Where the code and its documented intent differ, the model follows the code:

- The smoothed reading is documented as always within `[minValue, maxValue]`.
  The setters never keep `minValue <= maxValue`, and with reversed bounds
  `constrain` pins the reading to one of the bounds: the lower one when the
  smoothed value is below it, the upper one otherwise. `Step`, `RunClamp` and
  `MinAboveMaxBreaksClamp` prove the clamp for ordered bounds and this pinning
  for reversed ones.
- With the judge count of the current state at 255 the strict
  `counter > judge` test can never fire, because the 8-bit counter wraps to 0
  instead of reaching 256 (`MaxJudgeNeverFires`). So a touched port whose
  release judge count is set to 255 never releases
  (`MaxReleaseJudgeHoldsTouch`).

## Model

| member | source | states |
|---|---|---|
| Config.DefaultMaskSelectsAll | MPR121_Config.h:73 | the default mask 0xFFFF enables every one of the 12 ports |
| Config.AllOnesBitSet | MPR121_Config.h:73 | a mask of k ones, (1 << k) - 1, has each of its low k bits set |
| TouchChannel.Constrain | MPR121_Control.cpp:62 | an input below the lower bound becomes exactly the lower bound; otherwise an input above the upper bound becomes exactly the upper bound; otherwise it is returned unchanged. So with ordered bounds the result lies within them, and with reversed bounds it is one of the two bounds |
| TouchChannel.Smooth | MPR121_Control.cpp:61 | the filtered value lies between the previous value and the new reading, and its distance to the reading shrinks to 2/5 of the previous distance |
| TouchChannel.Anchor | MPR121_Control.cpp:85-92 | a threshold anchored for the touched state sits at or above the reading, and for the released state at or below it, so the anchoring reading itself never qualifies |
| TouchChannel.Inc8 | MPR121_Control.cpp:74 | the 8-bit counter increment adds one below 255 and wraps 255 to 0 |
| TouchChannel.Step | MPR121_Control.cpp:59-93 | one cycle leaves the tuning alone; the clamp holds iff the bounds are ordered, and with reversed bounds the reading is pinned to the lower bound when the smoothed value is below it and to the upper bound otherwise; a transition fires iff the cycle qualifies (`Qualifies`, the hysteresis test of lines 68-70) and the incremented counter exceeds the judge count of the current state (`Judge`, line 80); on a transition the counter is 0 and the threshold is anchored at this cycle's reading; otherwise the threshold is unchanged and the counter is incremented or reset to 0; afterwards the counter never exceeds the judge count |
| TouchChannel.Fresh | MPR121_Control.cpp:30-45 | a newly constructed active port has bounds 600..710, margins 30/20, judge counts 15, counter 0, is released, holds its first reading clamped (below 600 gives 600, above 710 gives 710, otherwise the reading itself), and has its threshold at that reading minus 30 |
| ChannelBank.Init | MPR121_Control.cpp:11-47 | construction stores the address and mask, gives every active port the defaults from its own reading (clamped and anchored), and leaves every port released with counter 0 |
| ChannelBank.Update | MPR121_Control.cpp:55-96 | the port loop equals the per-port map `Cycle`: it steps each active port on its own reading, leaves inactive ports unchanged, and leaves every active port with ordered bounds within them |
| ChannelBank.PackFrom | MPR121_Config.h:99 | the packed word has bit i set exactly when port i is touched, no bit above port 11, and a value below 2^(ports packed) |
| ChannelBank.TouchedMask | MPR121_Config.h:99 | `currentTouched` is a 16-bit word whose bit i is port i's touched state and whose bits from 12 up are clear |
| ChannelBank.IsTouched | MPR121_Control.cpp:104-109 | `isTouched` is true iff the port is below 12, active and touched (the guard `Config.PortEnabled` shared with the six setters), which is the port's bit of the packed word when the guard holds; otherwise it is false |
| ChannelBank.SetTouchMargin | MPR121_Control.cpp:168-180 | on a disabled port nothing changes; otherwise only that port changes: it stores the margin and re-anchors the threshold for the current state with the new margin, and its reading, counter and state stay |
| ChannelBank.SetReleaseMargin | MPR121_Control.cpp:189-201 | on a disabled port nothing changes; otherwise only that port changes: it stores the margin and re-anchors the threshold for the current state with the new margin, and its reading, counter and state stay |
| ChannelBank.SetSensorMinValue | MPR121_Control.cpp:210-214 | on a disabled port nothing changes; otherwise only that port's lower bound changes |
| ChannelBank.SetSensorMaxValue | MPR121_Control.cpp:223-227 | on a disabled port nothing changes; otherwise only that port's upper bound changes |
| ChannelBank.SetTouchJudgeCount | MPR121_Control.cpp:236-240 | on a disabled port nothing changes; otherwise only that port's touch judge count changes |
| ChannelBank.SetReleaseJudgeCount | MPR121_Control.cpp:249-253 | on a disabled port nothing changes; otherwise only that port's release judge count changes |
| ChannelBank.InitTouchedMaskZero | MPR121_Config.h:99 | right after construction the packed touch word is 0 and no port reports touched |
| ChannelBank.DefaultInitAllActive | MPR121_Config.h:73 | with the default constructor arguments all 12 ports are enabled, and each starts from its own reading with the defaults |
| ChannelBank.CycleLocal | MPR121_Control.cpp:56-93 | what an update does to port i depends only on port i's mask bit, its own state and its own reading |
| ChannelBank.CycleTogglesMask | MPR121_Control.cpp:82 | on the packed word, an update flips exactly the bits of the active ports whose step changes state |
| ChannelBank.UpdatesPerPort | MPR121_Control.cpp:56-93 | over any number of updates, each active port evolves as a lone channel fed its own readings, and each inactive port keeps its state |
| ChannelBank.UpdatesClamp | MPR121_Control.cpp:61-62 | after at least one update, an active port with ordered bounds holds a reading within them |
| ChannelBank.MarginSettersIdempotent | MPR121_Control.cpp:168-201 | setting the same margin twice gives the same result as setting it once |
| ChannelBank.SameMarginOnAnchoredIsNoop | MPR121_Control.cpp:168-201 | re-setting the margin a port already has changes nothing when its threshold is already anchored at its reading |
| ChannelBank.SettersKeepTouchState | MPR121_Control.cpp:168-253 | none of the six setters changes what `isTouched` reports for any port |
| ChannelBank.MinAboveMaxBreaksClamp | MPR121_Control.cpp:210-214 | a lower bound stored above the upper bound is accepted, and the next update pins that port's reading to the new lower bound when the smoothed value is below it and to the upper bound otherwise, outside the bounds either way |
| Debounce.RunClamp | MPR121_Control.cpp:61-62 | any number of cycles leaves the tuning unchanged; after at least one cycle the reading lies within ordered bounds, and with reversed bounds it equals one of the two bounds |
| Debounce.CounterGrowth | MPR121_Control.cpp:73-77 | each cycle adds at most one to the counter |
| Debounce.TrailingStreak | MPR121_Control.cpp:73-77 | if the counter is at least k at the end of a run, the last k cycles of that run all qualified, so progress never carries across a failed cycle |
| Debounce.TransitionNeedsStreak | MPR121_Control.cpp:73-83 | starting from an empty streak, a state change needs the firing cycle and the judge-count cycles before it to qualify in an unbroken run |
| Debounce.StreakClimbs | MPR121_Control.cpp:73-80 | an unbroken qualifying streak that stays within the judge count changes neither state nor threshold, and raises the counter by one per cycle |
| Debounce.FiresAfterStreak | MPR121_Control.cpp:73-92 | with a judge count below 255, judge-count-minus-counter-plus-one consecutive qualifying cycles keep the state for all but the last cycle and flip it on the last, leaving counter 0 and an anchored threshold |
| Debounce.MaxJudgeNeverFires | MPR121_Control.cpp:74-80 | with the judge count of the current state at 255 the port never changes state, whatever the readings |
| ChannelBank.MaxReleaseJudgeHoldsTouch | MPR121_Control.cpp:249-253 | after the release judge count of a touched active port is set to 255, `isTouched` stays true for that port over any number of updates |
| Scenario.Decays | MPR121_Control.cpp:55-96 | with the defaults, a first reading of 650 and then 600 every cycle, cycle n (up to 16) leaves the reading at 600 + 50·(2/5)^n; the port stays released with threshold 620 and counter n − 1 |
| Scenario.TouchOnCycle17 | MPR121_Control.cpp:55-96 | in the same run the first 16 cycles keep the port released, and cycle 17 turns it touched with counter 0 and threshold 20 above that cycle's reading |
| Scenario.StreakResetByOneCycle | MPR121_Control.cpp:73-83 | in the same run, after ten qualifying cycles a reading of 710 fails the test; the counter drops to 0 and the port stays released |

## Left out

- `printStatus`: serial output, plus a hidden static `millis()` timer that
  limits how often it prints. This is I/O and wall-clock state.
- Hardware calls: `cap.begin`, the auto-configuration register write,
  `delay(100)` and `cap.filteredData`. The readings become inputs.
- IEEE-754 `float` rounding of readings, thresholds and alpha. Exact reals
  are used instead.
- The I2C address: it is stored by `Init` and never used by any modelled
  operation.
- The documented advice that the touch margin should exceed the release
  margin. The code never enforces it, so it is not assumed.
- Slots of inactive ports: the source never initialises them. The model fills
  them with a fixed `Dormant` channel. No modelled operation reads them,
  except their touched bit, which starts at 0 as `currentTouched` does.
- Mask bits 12..15 of the active-port mask: the source ignores them, and so
  does the model.
