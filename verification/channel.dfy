/** One electrode of the MPR121 board: the smoothing filter, the clamp, the
    hysteresis comparison, the consecutive-cycle counter and the threshold
    re-anchoring performed by one iteration of `MPR121Manager::update`.

    The C++ keeps these fields in parallel arrays indexed by port; the model
    gathers one port's entries into a `Channel` value. Readings and
    thresholds are `float` in the source and exact reals here. */
module TouchChannel {
  import opened Config

  datatype Channel = Channel(
    value: real,            // smoothed reading
    minValue: uint16,       // lower clamp bound
    maxValue: uint16,       // upper clamp bound
    threshold: real,        // comparison boundary of the hysteresis test
    touchMargin: uint16,    // offset below the reading that arms the touch test
    releaseMargin: uint16,  // offset above the reading that arms the release test
    touchJudge: uint8,      // required streak while released ("touchJuge")
    releaseJudge: uint8,    // required streak while touched ("releaseJuge")
    counter: uint8,         // length of the current qualifying streak
    touched: bool)          // this port's bit of the packed touch state

  /** The reading lies within the channel's clamp bounds. */
  predicate InBounds(ch: Channel) {
    ch.minValue as real <= ch.value <= ch.maxValue as real
  }

  /** The streak length a transition has to exceed in the current state. */
  function Judge(ch: Channel): uint8 {
    if ch.touched then ch.releaseJudge else ch.touchJudge
  }

  /** Arduino's `constrain` macro: below `lo` gives `lo`, otherwise above `hi`
      gives `hi`, otherwise the input. Nothing orders `lo` and `hi`. */
  function Constrain(x: real, lo: uint16, hi: uint16): (r: real)
    ensures lo <= hi ==> lo as real <= r <= hi as real
    ensures x < lo as real ==> r == lo as real
    ensures lo as real <= x && hi as real < x ==> r == hi as real
    ensures lo as real <= x <= hi as real ==> r == x
    ensures hi < lo ==> (r == lo as real || r == hi as real)
  {
    if x < lo as real then lo as real
    else if x > hi as real then hi as real
    else x
  }

  /** The single-pole low-pass filter `alpha * raw + (1 - alpha) * prev`: the
      result lies between the previous value and the new reading, and its
      distance to the reading shrinks to 2/5 of the previous distance. */
  function Smooth(raw: uint16, prev: real): (r: real)
    ensures r - raw as real == (2.0 / 5.0) * (prev - raw as real)
    ensures raw as real <= prev ==> raw as real <= r <= prev
    ensures prev <= raw as real ==> prev <= r <= raw as real
  {
    Alpha * raw as real + (1.0 - Alpha) * prev
  }

  /** The reading after one cycle: smoothed, then clamped to the channel's bounds. */
  function Filter(ch: Channel, raw: uint16): real {
    Constrain(Smooth(raw, ch.value), ch.minValue, ch.maxValue)
  }

  /** The hysteresis test: while touched a cycle counts toward release when the
      reading rises above the threshold, while released it counts toward touch
      when the reading falls below it. */
  predicate Qualifies(touched: bool, v: real, threshold: real) {
    if touched then v > threshold else v < threshold
  }

  /** The threshold fixed for a channel in state `touched` at reading `v`. The
      reading it was anchored at never itself qualifies, so a new streak has
      to start from a further move of the reading. */
  function Anchor(touched: bool, v: real, touchMargin: uint16, releaseMargin: uint16): (t: real)
    ensures touched ==> v <= t
    ensures !touched ==> t <= v
    ensures !Qualifies(touched, v, t)
  {
    if touched then v + releaseMargin as real else v - touchMargin as real
  }

  /** The threshold is positioned relative to the channel's current reading and
      state as a transition or a margin change places it. */
  predicate Anchored(ch: Channel) {
    ch.threshold == Anchor(ch.touched, ch.value, ch.touchMargin, ch.releaseMargin)
  }

  /** `counter++` on a `uint8_t`: wraps from 255 to 0. */
  function Inc8(c: uint8): (r: uint8)
    ensures c < 0xFF ==> r == c + 1
    ensures c == 0xFF ==> r == 0
    ensures r <= c + 1
  {
    (c + 1) % 0x100
  }

  /** One cycle of one active port, given the raw reading of that cycle. */
  function Step(ch: Channel, raw: uint16): (r: Channel)
    // the tuning fields are left alone
    ensures r.(value := ch.value, threshold := ch.threshold, counter := ch.counter, touched := ch.touched) == ch
    ensures r.value == Filter(ch, raw)
    // the clamp holds exactly when the bounds are ordered
    ensures ch.minValue <= ch.maxValue ==> InBounds(r)
    ensures ch.maxValue < ch.minValue ==> !InBounds(r)
    // with reversed bounds the reading is pinned to one of them: the lower one
    // when the smoothed value is below it, the upper one otherwise
    ensures ch.maxValue < ch.minValue ==>
      r.value == (if Smooth(raw, ch.value) < ch.minValue as real then ch.minValue as real else ch.maxValue as real)
    // a transition fires iff this cycle qualifies and the streak then exceeds the judge count
    ensures r.touched != ch.touched <==> Qualifies(ch.touched, r.value, ch.threshold) && Inc8(ch.counter) > Judge(ch)
    // on a transition the counter restarts and the threshold is re-anchored at this cycle's reading
    ensures r.touched != ch.touched ==> r.counter == 0 && Anchored(r)
    // otherwise the threshold stays and the counter extends or breaks the streak
    ensures r.touched == ch.touched ==> r.threshold == ch.threshold
    ensures r.touched == ch.touched ==> r.counter == (if Qualifies(ch.touched, r.value, ch.threshold) then Inc8(ch.counter) else 0)
    // whatever the judge count was lowered to, after a cycle the counter does not exceed it
    ensures r.counter <= Judge(r)
  {
    var v := Filter(ch, raw);
    var c := if Qualifies(ch.touched, v, ch.threshold) then Inc8(ch.counter) else 0;
    if c > Judge(ch) then
      ch.(value := v, counter := 0, touched := !ch.touched,
          threshold := if ch.touched then v - ch.touchMargin as real else v + ch.releaseMargin as real)
    else
      ch.(value := v, counter := c)
  }

  /** Lower and upper clamp bounds given to every active port at construction. */
  const DefaultMinValue: uint16 := 600
  const DefaultMaxValue: uint16 := 710
  /** Margins and judge counts given to every active port at construction. */
  const DefaultTouchMargin: uint16 := 30
  const DefaultReleaseMargin: uint16 := 20
  const DefaultJudge: uint8 := 15

  /** Construction of an active port from its first raw reading: default
      tuning, reading clamped, released, empty streak, threshold anchored
      below the reading by the touch margin. */
  function Fresh(raw: uint16): (ch: Channel)
    ensures !ch.touched && ch.counter == 0
    ensures ch.minValue == 600 && ch.maxValue == 710
    ensures ch.touchMargin == 30 && ch.releaseMargin == 20
    ensures ch.touchJudge == 15 && ch.releaseJudge == 15
    ensures InBounds(ch) && Anchored(ch)
    ensures 600 <= raw <= 710 ==> ch.value == raw as real
    ensures raw < 600 ==> ch.value == 600.0
    ensures raw > 710 ==> ch.value == 710.0
    ensures ch.threshold == ch.value - 30.0
  {
    var v := Constrain(raw as real, DefaultMinValue, DefaultMaxValue);
    Channel(v, DefaultMinValue, DefaultMaxValue, v - DefaultTouchMargin as real,
            DefaultTouchMargin, DefaultReleaseMargin, DefaultJudge, DefaultJudge, 0, false)
  }
}
