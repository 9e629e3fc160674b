/** The `MPR121Manager` object: twelve channels, the active-port mask, and the
    operations the class exposes (construction, `update`, `isTouched` and the
    six tuning setters).

    Each channel stores its own touched bit; the packed `currentTouched`
    word of the source is derived from them by `TouchedMask`, and is proved
    to agree bit for bit with what `isTouched` reports and with the toggling
    that `update` performs. */
module ChannelBank {
  import opened Config
  import opened TouchChannel
  import opened Debounce

  datatype Bank = Bank(address: uint8, activePort: uint16, channels: seq<Channel>)

  /** The fixed-size per-port arrays of the class. */
  predicate WellFormed(b: Bank) {
    |b.channels| == MaxPort
  }

  /** The slot of a port the constructor does not initialise. The C++ leaves
      those array entries as they were; no operation reads them apart from the
      touched bit, which starts at 0 for every port. */
  const Dormant: Channel := Channel(0.0, 0, 0, 0.0, 0, 0, 0, 0, 0, false)

  /** The state of port `i` after construction, given its first raw reading. */
  function InitialChannel(mask: uint16, raw: uint16, i: nat): Channel
    requires i < MaxPort
  {
    if BitSet(mask, i) then Fresh(raw) else Dormant
  }

  /** The constructor: store the mask and address, and initialise every
      active port from the reading the sensor gives for it. `raws[i]` stands
      for `cap.filteredData(i)`; entries of inactive ports are not read. */
  function Init(address: uint8, mask: uint16, raws: seq<uint16>): (b: Bank)
    requires |raws| == MaxPort
    ensures WellFormed(b) && b.address == address && b.activePort == mask
    ensures forall i :: 0 <= i < MaxPort ==> !b.channels[i].touched && b.channels[i].counter == 0
    ensures forall i :: 0 <= i < MaxPort && BitSet(mask, i) ==> b.channels[i] == Fresh(raws[i])
    ensures forall i :: 0 <= i < MaxPort && BitSet(mask, i) ==> InBounds(b.channels[i]) && Anchored(b.channels[i])
  {
    Bank(address, mask, seq(MaxPort, i requires 0 <= i < MaxPort => InitialChannel(mask, raws[i], i)))
  }

  /** What one `update` does to port `i`: an active port takes a step on its
      own raw reading, an inactive port is skipped. */
  function CycleChannel(b: Bank, raws: seq<uint16>, i: nat): Channel
    requires WellFormed(b) && |raws| == MaxPort && i < MaxPort
  {
    if BitSet(b.activePort, i) then Step(b.channels[i], raws[i]) else b.channels[i]
  }

  /** One `update` of the whole bank, as a single functional map over the ports. */
  function Cycle(b: Bank, raws: seq<uint16>): (r: Bank)
    requires WellFormed(b) && |raws| == MaxPort
    ensures WellFormed(r) && r.address == b.address && r.activePort == b.activePort
  {
    b.(channels := seq(MaxPort, i requires 0 <= i < MaxPort => CycleChannel(b, raws, i)))
  }

  /** `update`: the port loop of the source, visiting ports in ascending order. */
  method Update(b: Bank, raws: seq<uint16>) returns (r: Bank)
    requires WellFormed(b) && |raws| == MaxPort
    ensures r == Cycle(b, raws)
    ensures forall i :: 0 <= i < MaxPort && !BitSet(b.activePort, i) ==> r.channels[i] == b.channels[i]
    ensures forall i :: 0 <= i < MaxPort && BitSet(b.activePort, i) ==> r.channels[i] == Step(b.channels[i], raws[i])
    ensures forall i :: 0 <= i < MaxPort && BitSet(b.activePort, i) && b.channels[i].minValue <= b.channels[i].maxValue
              ==> InBounds(r.channels[i])
  {
    var chs := b.channels;
    var i := 0;
    while i < MaxPort
      invariant 0 <= i <= MaxPort && |chs| == MaxPort
      invariant forall j :: 0 <= j < i ==> chs[j] == CycleChannel(b, raws, j)
      invariant forall j :: i <= j < MaxPort ==> chs[j] == b.channels[j]
    {
      if BitSet(b.activePort, i) {
        chs := chs[i := Step(chs[i], raws[i])];
      }
      i := i + 1;
    }
    r := b.(channels := chs);
  }

  /** The packed touch state of ports `from` .. MaxPort - 1, shifted down by
      `from`: the source keeps bit `i` of `currentTouched` set iff port `i` is
      touched, and leaves the bits above the last port clear. */
  function PackFrom(chs: seq<Channel>, from: nat): (m: nat)
    requires |chs| == MaxPort && from <= MaxPort
    ensures forall j :: 0 <= j < MaxPort - from ==> (BitSet(m, j) <==> chs[from + j].touched)
    ensures forall j :: MaxPort - from <= j ==> !BitSet(m, j)
    ensures m < Pow2(MaxPort - from)
    decreases MaxPort - from
  {
    if from == MaxPort then
      assert forall j :: !BitSet(0, j) by {
        forall j { ZeroHasNoBits(j); }
      }
      0
    else
      var rest := PackFrom(chs, from + 1);
      var m := (if chs[from].touched then 1 else 0) + 2 * rest;
      assert m % 2 == 1 <==> chs[from].touched;
      assert m / 2 == rest;
      assert forall j :: 1 <= j ==> (BitSet(m, j) <==> BitSet(rest, j - 1));
      m
  }

  /** Every bit of the empty mask is clear. */
  lemma {:induction false} ZeroHasNoBits(j: nat)
    ensures !BitSet(0, j)
  {
    if j > 0 {
      ZeroHasNoBits(j - 1);
    }
  }

  /** The source's `currentTouched` word, a 16-bit value with one bit per port. */
  function TouchedMask(b: Bank): (m: uint16)
    requires WellFormed(b)
    ensures forall i :: 0 <= i < MaxPort ==> (BitSet(m, i) <==> b.channels[i].touched)
    ensures forall i :: MaxPort <= i ==> !BitSet(m, i)
  {
    assert Pow2(MaxPort) == 0x1000 by {
      assert Pow2(4) == 16;
      assert Pow2(8) == 256;
    }
    PackFrom(b.channels, 0)
  }

  /** `isTouched(port)`: the port's touched bit when it is in range and active,
      `false` otherwise, which a caller cannot tell from a released port. */
  function IsTouched(b: Bank, port: uint8): (r: bool)
    requires WellFormed(b)
    ensures r <==> port < MaxPort && BitSet(b.activePort, port) && b.channels[port].touched
    ensures r <==> PortEnabled(b.activePort, port) && BitSet(TouchedMask(b), port)
  {
    if PortEnabled(b.activePort, port) then b.channels[port].touched else false
  }

  /** Replace the channel of one port. */
  function WithChannel(b: Bank, port: nat, ch: Channel): (r: Bank)
    requires WellFormed(b) && port < MaxPort
    ensures WellFormed(r) && r.address == b.address && r.activePort == b.activePort
    ensures r.channels[port] == ch
    ensures forall j :: 0 <= j < MaxPort && j != port ==> r.channels[j] == b.channels[j]
  {
    b.(channels := b.channels[port := ch])
  }

  /** The bank differs from `b` at most in the channel of `port`. */
  predicate OnlyPortChanged(b: Bank, r: Bank, port: nat)
    requires WellFormed(b) && WellFormed(r)
  {
    && r.address == b.address && r.activePort == b.activePort
    && forall j :: 0 <= j < MaxPort && j != port ==> r.channels[j] == b.channels[j]
  }

  /** `setTouchMargin`: store the margin and re-anchor the threshold for the
      current state with the new margin; counter, state and reading stay. */
  function SetTouchMargin(b: Bank, port: uint8, margin: uint8): (r: Bank)
    requires WellFormed(b)
    ensures WellFormed(r)
    ensures !PortEnabled(b.activePort, port) ==> r == b
    ensures PortEnabled(b.activePort, port) ==>
      && OnlyPortChanged(b, r, port)
      && r.channels[port].touchMargin == margin
      && Anchored(r.channels[port])
      && r.channels[port].(touchMargin := b.channels[port].touchMargin, threshold := b.channels[port].threshold)
         == b.channels[port]
  {
    if PortEnabled(b.activePort, port) then
      var ch := b.channels[port].(touchMargin := margin);
      WithChannel(b, port, ch.(threshold := Anchor(ch.touched, ch.value, ch.touchMargin, ch.releaseMargin)))
    else b
  }

  /** `setReleaseMargin`: store the margin and re-anchor the threshold for the
      current state with the new margin; counter, state and reading stay. */
  function SetReleaseMargin(b: Bank, port: uint8, margin: uint8): (r: Bank)
    requires WellFormed(b)
    ensures WellFormed(r)
    ensures !PortEnabled(b.activePort, port) ==> r == b
    ensures PortEnabled(b.activePort, port) ==>
      && OnlyPortChanged(b, r, port)
      && r.channels[port].releaseMargin == margin
      && Anchored(r.channels[port])
      && r.channels[port].(releaseMargin := b.channels[port].releaseMargin, threshold := b.channels[port].threshold)
         == b.channels[port]
  {
    if PortEnabled(b.activePort, port) then
      var ch := b.channels[port].(releaseMargin := margin);
      WithChannel(b, port, ch.(threshold := Anchor(ch.touched, ch.value, ch.touchMargin, ch.releaseMargin)))
    else b
  }

  /** `setSensorMinValue`: store the lower bound only; it is not checked
      against the upper bound and the reading is not re-clamped. */
  function SetSensorMinValue(b: Bank, port: uint8, value: uint16): (r: Bank)
    requires WellFormed(b)
    ensures WellFormed(r)
    ensures !PortEnabled(b.activePort, port) ==> r == b
    ensures PortEnabled(b.activePort, port) ==>
      && OnlyPortChanged(b, r, port)
      && r.channels[port].minValue == value
      && r.channels[port].(minValue := b.channels[port].minValue) == b.channels[port]
  {
    if PortEnabled(b.activePort, port) then WithChannel(b, port, b.channels[port].(minValue := value))
    else b
  }

  /** `setSensorMaxValue`: store the upper bound only; it is not checked
      against the lower bound and the reading is not re-clamped. */
  function SetSensorMaxValue(b: Bank, port: uint8, value: uint16): (r: Bank)
    requires WellFormed(b)
    ensures WellFormed(r)
    ensures !PortEnabled(b.activePort, port) ==> r == b
    ensures PortEnabled(b.activePort, port) ==>
      && OnlyPortChanged(b, r, port)
      && r.channels[port].maxValue == value
      && r.channels[port].(maxValue := b.channels[port].maxValue) == b.channels[port]
  {
    if PortEnabled(b.activePort, port) then WithChannel(b, port, b.channels[port].(maxValue := value))
    else b
  }

  /** `setTouchJugeCount`: store the streak length required while released. */
  function SetTouchJudgeCount(b: Bank, port: uint8, count: uint8): (r: Bank)
    requires WellFormed(b)
    ensures WellFormed(r)
    ensures !PortEnabled(b.activePort, port) ==> r == b
    ensures PortEnabled(b.activePort, port) ==>
      && OnlyPortChanged(b, r, port)
      && r.channels[port].touchJudge == count
      && r.channels[port].(touchJudge := b.channels[port].touchJudge) == b.channels[port]
  {
    if PortEnabled(b.activePort, port) then WithChannel(b, port, b.channels[port].(touchJudge := count))
    else b
  }

  /** `setReleaseJugeCount`: store the streak length required while touched. */
  function SetReleaseJudgeCount(b: Bank, port: uint8, count: uint8): (r: Bank)
    requires WellFormed(b)
    ensures WellFormed(r)
    ensures !PortEnabled(b.activePort, port) ==> r == b
    ensures PortEnabled(b.activePort, port) ==>
      && OnlyPortChanged(b, r, port)
      && r.channels[port].releaseJudge == count
      && r.channels[port].(releaseJudge := b.channels[port].releaseJudge) == b.channels[port]
  {
    if PortEnabled(b.activePort, port) then WithChannel(b, port, b.channels[port].(releaseJudge := count))
    else b
  }

  /* ---------------- construction ---------------- */

  /** The packed touch state of a bank with no touched port is 0. */
  lemma {:induction false} PackUntouched(chs: seq<Channel>, from: nat)
    requires |chs| == MaxPort && from <= MaxPort
    requires forall i :: from <= i < MaxPort ==> !chs[i].touched
    ensures PackFrom(chs, from) == 0
    decreases MaxPort - from
  {
    if from < MaxPort {
      PackUntouched(chs, from + 1);
    }
  }

  /** Every port starts released: `currentTouched` is 0 after construction. */
  lemma InitTouchedMaskZero(address: uint8, mask: uint16, raws: seq<uint16>)
    requires |raws| == MaxPort
    ensures TouchedMask(Init(address, mask, raws)) == 0
    ensures forall p: uint8 :: !IsTouched(Init(address, mask, raws), p)
  {
    PackUntouched(Init(address, mask, raws).channels, 0);
  }

  /** The default constructor arguments select all twelve ports, each of which
      starts from its own reading with the default tuning. */
  lemma DefaultInitAllActive(raws: seq<uint16>)
    requires |raws| == MaxPort
    ensures forall p: uint8 :: p < MaxPort ==> PortEnabled(Init(DefaultAddress, DefaultPortMask, raws).activePort, p)
    ensures forall i :: 0 <= i < MaxPort ==> Init(DefaultAddress, DefaultPortMask, raws).channels[i] == Fresh(raws[i])
  {
    forall i | 0 <= i < MaxPort
      ensures PortEnabled(DefaultPortMask, i) && BitSet(DefaultPortMask, i)
    {
      DefaultMaskSelectsAll(i);
    }
  }

  /* ---------------- update ---------------- */

  /** Ports are independent: what `update` does to port `i` depends only on
      whether `i` is active, on port `i`'s own state and on its own reading. */
  lemma CycleLocal(b1: Bank, raws1: seq<uint16>, b2: Bank, raws2: seq<uint16>, i: nat)
    requires WellFormed(b1) && |raws1| == MaxPort && WellFormed(b2) && |raws2| == MaxPort
    requires i < MaxPort
    requires BitSet(b1.activePort, i) == BitSet(b2.activePort, i)
    requires b1.channels[i] == b2.channels[i] && raws1[i] == raws2[i]
    ensures Cycle(b1, raws1).channels[i] == Cycle(b2, raws2).channels[i]
  {
  }

  /** `update` as the source writes it on the packed word: it toggles the bit
      of exactly those active ports whose step changes state. */
  lemma CycleTogglesMask(b: Bank, raws: seq<uint16>, i: nat)
    requires WellFormed(b) && |raws| == MaxPort && i < MaxPort
    ensures BitSet(TouchedMask(Cycle(b, raws)), i) <==>
            (BitSet(TouchedMask(b), i) != (BitSet(b.activePort, i) && Step(b.channels[i], raws[i]).touched != b.channels[i].touched))
  {
  }

  /** The readings of port `i` across a sequence of cycles. */
  function Column(cycles: seq<seq<uint16>>, i: nat): (col: seq<uint16>)
    requires i < MaxPort && forall k :: 0 <= k < |cycles| ==> |cycles[k]| == MaxPort
    ensures |col| == |cycles|
    ensures forall k :: 0 <= k < |cycles| ==> col[k] == cycles[k][i]
  {
    seq(|cycles|, k requires 0 <= k < |cycles| => cycles[k][i])
  }

  /** The bank after one `update` per entry of `cycles`. */
  function Updates(b: Bank, cycles: seq<seq<uint16>>): (r: Bank)
    requires WellFormed(b) && forall k :: 0 <= k < |cycles| ==> |cycles[k]| == MaxPort
    ensures WellFormed(r) && r.address == b.address && r.activePort == b.activePort
    decreases |cycles|
  {
    if |cycles| == 0 then b else Updates(Cycle(b, cycles[0]), cycles[1..])
  }

  /** Over any number of cycles each active port evolves as a lone channel fed
      its own readings, and each inactive port keeps its state. */
  lemma {:induction false} UpdatesPerPort(b: Bank, cycles: seq<seq<uint16>>, i: nat)
    requires WellFormed(b) && forall k :: 0 <= k < |cycles| ==> |cycles[k]| == MaxPort
    requires i < MaxPort
    ensures BitSet(b.activePort, i) ==> Updates(b, cycles).channels[i] == Run(b.channels[i], Column(cycles, i))
    ensures !BitSet(b.activePort, i) ==> Updates(b, cycles).channels[i] == b.channels[i]
    decreases |cycles|
  {
    if |cycles| > 0 {
      UpdatesPerPort(Cycle(b, cycles[0]), cycles[1..], i);
      assert Column(cycles, i)[1..] == Column(cycles[1..], i);
    }
  }

  /** After at least one cycle, every active port whose bounds are ordered holds
      a reading within them. */
  lemma UpdatesClamp(b: Bank, cycles: seq<seq<uint16>>, i: nat)
    requires WellFormed(b) && forall k :: 0 <= k < |cycles| ==> |cycles[k]| == MaxPort
    requires i < MaxPort && BitSet(b.activePort, i) && |cycles| > 0
    requires b.channels[i].minValue <= b.channels[i].maxValue
    ensures InBounds(Updates(b, cycles).channels[i])
  {
    UpdatesPerPort(b, cycles, i);
    RunClamp(b.channels[i], Column(cycles, i));
  }

  /* ---------------- setters ---------------- */

  /** Setting a margin twice is setting it once. */
  lemma MarginSettersIdempotent(b: Bank, port: uint8, margin: uint8)
    requires WellFormed(b)
    ensures SetTouchMargin(SetTouchMargin(b, port, margin), port, margin) == SetTouchMargin(b, port, margin)
    ensures SetReleaseMargin(SetReleaseMargin(b, port, margin), port, margin) == SetReleaseMargin(b, port, margin)
  {
  }

  /** Re-setting the margin a channel already has changes nothing when its
      threshold is already anchored at its reading. */
  lemma SameMarginOnAnchoredIsNoop(b: Bank, port: uint8)
    requires WellFormed(b) && port < MaxPort && Anchored(b.channels[port])
    ensures b.channels[port].touchMargin < 0x100 ==> SetTouchMargin(b, port, b.channels[port].touchMargin) == b
    ensures b.channels[port].releaseMargin < 0x100 ==> SetReleaseMargin(b, port, b.channels[port].releaseMargin) == b
  {
    if PortEnabled(b.activePort, port) {
      assert b.channels[port := b.channels[port]] == b.channels;
    }
  }

  /** No setter changes which ports report touched. */
  lemma SettersKeepTouchState(b: Bank, port: uint8, v8: uint8, v16: uint16, q: uint8)
    requires WellFormed(b)
    ensures IsTouched(SetTouchMargin(b, port, v8), q) == IsTouched(b, q)
    ensures IsTouched(SetReleaseMargin(b, port, v8), q) == IsTouched(b, q)
    ensures IsTouched(SetSensorMinValue(b, port, v16), q) == IsTouched(b, q)
    ensures IsTouched(SetSensorMaxValue(b, port, v16), q) == IsTouched(b, q)
    ensures IsTouched(SetTouchJudgeCount(b, port, v8), q) == IsTouched(b, q)
    ensures IsTouched(SetReleaseJudgeCount(b, port, v8), q) == IsTouched(b, q)
  {
    if PortEnabled(b.activePort, port) {
      SameTouchState(b, SetTouchMargin(b, port, v8), port, q);
      SameTouchState(b, SetReleaseMargin(b, port, v8), port, q);
      SameTouchState(b, SetSensorMinValue(b, port, v16), port, q);
      SameTouchState(b, SetSensorMaxValue(b, port, v16), port, q);
      SameTouchState(b, SetTouchJudgeCount(b, port, v8), port, q);
      SameTouchState(b, SetReleaseJudgeCount(b, port, v8), port, q);
    }
  }

  /** A bank that differs from `b` at most in one port, and not in that port's
      touched bit, answers every `isTouched` query as `b` does. */
  lemma SameTouchState(b: Bank, r: Bank, port: nat, q: uint8)
    requires WellFormed(b) && WellFormed(r) && OnlyPortChanged(b, r, port)
    requires port < MaxPort ==> r.channels[port].touched == b.channels[port].touched
    ensures IsTouched(r, q) == IsTouched(b, q)
  {
    if PortEnabled(b.activePort, q) && q != port {
      assert r.channels[q] == b.channels[q];
    }
  }

  /** Nothing keeps the lower bound at or below the upper one: once a lower
      bound above the upper bound is stored, the next `update` pins the
      port's reading to the new lower bound when the smoothed value falls
      below it and to the upper bound otherwise, so it lies outside the
      bounds either way. */
  lemma MinAboveMaxBreaksClamp(b: Bank, port: uint8, value: uint16, raws: seq<uint16>)
    requires WellFormed(b) && |raws| == MaxPort
    requires PortEnabled(b.activePort, port) && b.channels[port].maxValue < value
    ensures Cycle(SetSensorMinValue(b, port, value), raws).channels[port].value ==
      (if Smooth(raws[port], b.channels[port].value) < value as real then value as real
       else b.channels[port].maxValue as real)
    ensures !InBounds(Cycle(SetSensorMinValue(b, port, value), raws).channels[port])
  {
  }

  /** A touched port whose release judge count is set to 255 never releases
      again, whatever the readings of any number of later updates. */
  lemma MaxReleaseJudgeHoldsTouch(b: Bank, port: uint8, cycles: seq<seq<uint16>>)
    requires WellFormed(b) && forall k :: 0 <= k < |cycles| ==> |cycles[k]| == MaxPort
    requires PortEnabled(b.activePort, port) && b.channels[port].touched
    ensures IsTouched(Updates(SetReleaseJudgeCount(b, port, 0xFF), cycles), port)
  {
    var s := SetReleaseJudgeCount(b, port, 0xFF);
    UpdatesPerPort(s, cycles, port);
    MaxJudgeNeverFires(s.channels[port], Column(cycles, port));
  }
}
