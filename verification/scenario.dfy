/** A worked run of one port with the constructor defaults (bounds 600..710,
    margins 30 and 20, both judge counts 15): the first reading is 650, so
    the port starts released at 650 with threshold 620, and every later
    reading is 600.

    The smoothed reading after `n` cycles is `600 + 50 * (2/5)^n`. It reaches
    exactly 620 after the first cycle, which does not qualify (the test is
    strict), and stays below 620 from the second cycle on; so the counter
    after `n` cycles is `n - 1`, and the port turns touched on cycle 17, the
    first on which the unbroken streak (16) exceeds 15. */
module Scenario {
  import opened Config
  import opened TouchChannel
  import opened Debounce

  /** `(2/5)^n`, the share of the initial distance to 600 still left after `n` cycles. */
  function Decay(n: nat): (d: real)
    ensures 0.0 < d <= 1.0
    ensures n >= 1 ==> d <= 2.0 / 5.0
    ensures n >= 2 ==> d <= 4.0 / 25.0
  {
    if n == 0 then 1.0 else (2.0 / 5.0) * Decay(n - 1)
  }

  /** `n` cycles of the same reading. */
  function Steady(raw: uint16, n: nat): (raws: seq<uint16>)
    ensures |raws| == n && forall k :: 0 <= k < n ==> raws[k] == raw
  {
    seq(n, _ => raw)
  }

  /** The port after construction at 650 and `n` cycles at 600. */
  function After(n: nat): Channel {
    Run(Fresh(650), Steady(600, n))
  }

  /** Up to cycle 16 the port decays geometrically toward 600, stays released
      with threshold 620, and counts one cycle fewer than it has run. */
  lemma {:induction false} Decays(n: nat)
    requires 1 <= n <= 16
    ensures After(n).value == 600.0 + 50.0 * Decay(n)
    ensures !After(n).touched && After(n).threshold == 620.0
    ensures After(n).counter == n - 1
    ensures SameTuning(After(n), Fresh(650))
  {
    var prev := Run(Fresh(650), Steady(600, n - 1));
    var d := if n == 1 then 1.0 else Decay(n - 1);
    assert Steady(600, n) == Steady(600, n - 1) + [600];
    RunSnoc(Fresh(650), Steady(600, n - 1), 600);
    assert After(n) == Step(prev, 600);
    assert Decay(n) == (2.0 / 5.0) * d;
    if n == 1 {
      assert Steady(600, 0) == [];
      assert prev == Fresh(650);
    } else {
      Decays(n - 1);
    }
    CycleAt600(prev, d);
  }

  /** One cycle at 600 of the port while it is released with threshold 620 and
      its reading `50 * d` above 600: the distance shrinks to `(2/5) * d`; the
      cycle qualifies iff `d < 1`, and it fires iff it qualifies with the
      counter already at the judge count 15. */
  lemma CycleAt600(ch: Channel, d: real)
    requires ch.value == 600.0 + 50.0 * d && 0.0 < d <= 1.0
    requires !ch.touched && ch.threshold == 620.0 && ch.counter <= 15
    requires SameTuning(ch, Fresh(650))
    ensures Step(ch, 600).value == 600.0 + 50.0 * ((2.0 / 5.0) * d)
    ensures SameTuning(Step(ch, 600), Fresh(650))
    ensures d == 1.0 ==> !Step(ch, 600).touched && Step(ch, 600).counter == 0 && Step(ch, 600).threshold == 620.0
    ensures d < 1.0 && ch.counter < 15 ==>
      !Step(ch, 600).touched && Step(ch, 600).counter == ch.counter + 1 && Step(ch, 600).threshold == 620.0
    ensures d < 1.0 && ch.counter == 15 ==>
      Step(ch, 600).touched && Step(ch, 600).counter == 0 && Step(ch, 600).threshold == Step(ch, 600).value + 20.0
  {
    assert Smooth(600, ch.value) == 600.0 + 20.0 * d;
    assert Filter(ch, 600) == 600.0 + 20.0 * d;
    assert Judge(ch) == 15;
  }

  /** Cycle 17 fires: the port turns touched with the counter back at 0 and the
      threshold re-anchored 20 above the reading of that cycle. */
  lemma TouchOnCycle17()
    ensures Quiet(Fresh(650), Steady(600, 16))
    ensures After(17).touched && After(17).counter == 0
    ensures After(17).value == 600.0 + 50.0 * Decay(17)
    ensures After(17).threshold == After(17).value + 20.0
  {
    var before := After(16);
    Decays(16);
    CycleAt600(before, Decay(16));
    assert Steady(600, 17) == Steady(600, 16) + [600];
    RunSnoc(Fresh(650), Steady(600, 16), 600);
    assert After(17) == Step(before, 600);
    assert Decay(17) == (2.0 / 5.0) * Decay(16);
    QuietPrefix(16);
  }

  /** None of the first `n <= 16` cycles changes the state. */
  lemma {:induction false} QuietPrefix(n: nat)
    requires n <= 16
    ensures Quiet(Fresh(650), Steady(600, n))
  {
    if n > 0 {
      QuietPrefix(n - 1);
      Decays(n);
      assert Steady(600, n) == Steady(600, n - 1) + [600];
      RunSnoc(Fresh(650), Steady(600, n - 1), 600);
      QuietSnoc(Fresh(650), Steady(600, n - 1), 600);
    }
  }

  /** Extending a quiet run by a cycle that keeps the state keeps it quiet. */
  lemma {:induction false} QuietSnoc(ch: Channel, raws: seq<uint16>, raw: uint16)
    requires Quiet(ch, raws) && Step(Run(ch, raws), raw).touched == ch.touched
    ensures Quiet(ch, raws + [raw])
    decreases |raws|
  {
    if |raws| == 0 {
      assert [raw][1..] == [];
    } else {
      assert (raws + [raw])[1..] == raws[1..] + [raw];
      QuietSnoc(Step(ch, raws[0]), raws[1..], raw);
    }
  }

  /** A single cycle that fails the test wipes out a streak: after ten
      qualifying cycles (counter 10), a reading of 710 lifts the smoothed
      value above the threshold, the counter drops to 0 and the port stays
      released. */
  lemma StreakResetByOneCycle()
    ensures After(11).counter == 10
    ensures !StepQualifies(After(11), 710)
    ensures Step(After(11), 710).counter == 0 && !Step(After(11), 710).touched
  {
    Decays(11);
  }
}
