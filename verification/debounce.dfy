/** Properties of a channel over a sequence of update cycles: the clamp, the
    strictly consecutive streak a transition needs, the streak that makes it
    fire, and the judge count at which the 8-bit counter can never fire. */
module Debounce {
  import opened Config
  import opened TouchChannel

  /** The channel after one cycle per reading in `raws`, first reading first. */
  function Run(ch: Channel, raws: seq<uint16>): Channel
    decreases |raws|
  {
    if |raws| == 0 then ch else Run(Step(ch, raws[0]), raws[1..])
  }

  /** The cycle on reading `raw` passes the hysteresis test. */
  predicate StepQualifies(ch: Channel, raw: uint16) {
    Qualifies(ch.touched, Filter(ch, raw), ch.threshold)
  }

  /** Every cycle of the run passes the hysteresis test. */
  predicate AllQualify(ch: Channel, raws: seq<uint16>)
    decreases |raws|
  {
    |raws| == 0 || (StepQualifies(ch, raws[0]) && AllQualify(Step(ch, raws[0]), raws[1..]))
  }

  /** No cycle of the run changes the touched state. */
  predicate Quiet(ch: Channel, raws: seq<uint16>)
    decreases |raws|
  {
    |raws| == 0 || (Step(ch, raws[0]).touched == ch.touched && Quiet(Step(ch, raws[0]), raws[1..]))
  }

  /** The tuning fields of a channel: everything `update` never writes. */
  predicate SameTuning(a: Channel, b: Channel) {
    a.(value := b.value, threshold := b.threshold, counter := b.counter, touched := b.touched) == b
  }

  /** Running the last reading after the others is one more step. */
  lemma {:induction false} RunSnoc(ch: Channel, raws: seq<uint16>, raw: uint16)
    ensures Run(ch, raws + [raw]) == Step(Run(ch, raws), raw)
    decreases |raws|
  {
    if |raws| > 0 {
      assert (raws + [raw])[1..] == raws[1..] + [raw];
      RunSnoc(Step(ch, raws[0]), raws[1..], raw);
    }
  }

  /** A run splits at any point into two runs. */
  lemma {:induction false} RunAppend(ch: Channel, a: seq<uint16>, b: seq<uint16>)
    ensures Run(ch, a + b) == Run(Run(ch, a), b)
    decreases |a|
  {
    if |a| > 0 {
      assert (a + b)[1..] == a[1..] + b;
      RunAppend(Step(ch, a[0]), a[1..], b);
    } else {
      assert a + b == b;
    }
  }

  /** Cycles never change the tuning; after at least one cycle the reading
      lies within ordered bounds, and with reversed bounds it sits on one of
      the two bounds. */
  lemma {:induction false} RunClamp(ch: Channel, raws: seq<uint16>)
    requires |raws| > 0
    ensures SameTuning(Run(ch, raws), ch)
    ensures ch.minValue <= ch.maxValue ==> InBounds(Run(ch, raws))
    ensures ch.maxValue < ch.minValue ==> !InBounds(Run(ch, raws))
    ensures ch.maxValue < ch.minValue ==>
      Run(ch, raws).value == ch.minValue as real || Run(ch, raws).value == ch.maxValue as real
    decreases |raws|
  {
    if |raws| > 1 {
      RunClamp(Step(ch, raws[0]), raws[1..]);
    }
  }

  /** Each cycle adds at most one to the counter. */
  lemma {:induction false} CounterGrowth(ch: Channel, raws: seq<uint16>)
    ensures Run(ch, raws).counter <= ch.counter + |raws|
    decreases |raws|
  {
    if |raws| > 0 {
      CounterGrowth(Step(ch, raws[0]), raws[1..]);
    }
  }

  /** A counter of at least `k` at the end of a run means the last `k` cycles
      of the run all qualified: progress is never carried across a cycle that
      failed the test. */
  lemma {:induction false} TrailingStreak(ch: Channel, raws: seq<uint16>, k: nat)
    requires k <= |raws| && k <= Run(ch, raws).counter
    ensures AllQualify(Run(ch, raws[..|raws| - k]), raws[|raws| - k..])
    decreases |raws|
  {
    if k == 0 {
      assert raws[|raws|..] == [];
    } else {
      var rest := raws[1..];
      var next := Step(ch, raws[0]);
      if k <= |rest| {
        TrailingStreak(next, rest, k);
        assert raws[..|raws| - k] == [raws[0]] + rest[..|rest| - k];
        assert raws[|raws| - k..] == rest[|rest| - k..];
        RunAppend(ch, [raws[0]], rest[..|rest| - k]);
        assert Run(ch, [raws[0]]) == next;
      } else {
        // the streak covers the whole run, so its first cycle qualified too
        CounterGrowth(next, rest);
        assert StepQualifies(ch, raws[0]);
        TrailingStreak(next, rest, |rest|);
        assert rest[..0] == [];
        assert raws[..0] == [];
        assert raws[0..] == raws;
        assert rest[0..] == rest;
      }
    }
  }

  /** A transition needs an unbroken streak: if a channel starting with an
      empty streak (just constructed, or just transitioned) changes state on
      the cycle after `raws`, then that cycle and the `Judge` cycles before it
      all qualified. */
  lemma TransitionNeedsStreak(ch: Channel, raws: seq<uint16>, raw: uint16)
    requires ch.counter == 0
    requires Step(Run(ch, raws), raw).touched != Run(ch, raws).touched
    ensures Judge(Run(ch, raws)) <= |raws|
    ensures StepQualifies(Run(ch, raws), raw)
    ensures AllQualify(Run(ch, raws[..|raws| - Judge(Run(ch, raws))]), raws[|raws| - Judge(Run(ch, raws))..])
  {
    var last := Run(ch, raws);
    CounterGrowth(ch, raws);
    TrailingStreak(ch, raws, Judge(last));
  }

  /** An unbroken streak that stays within the judge count neither fires nor
      loses count: the counter grows by one per cycle. */
  lemma {:induction false} StreakClimbs(ch: Channel, raws: seq<uint16>)
    requires AllQualify(ch, raws)
    requires ch.counter + |raws| <= Judge(ch)
    ensures Quiet(ch, raws)
    ensures Run(ch, raws).counter == ch.counter + |raws|
    ensures Run(ch, raws).threshold == ch.threshold
    ensures Run(ch, raws).touched == ch.touched
    ensures SameTuning(Run(ch, raws), ch)
    decreases |raws|
  {
    if |raws| > 0 {
      StreakClimbs(Step(ch, raws[0]), raws[1..]);
    }
  }

  /** The streak that fires: from a counter within the judge count, a judge
      count below 255 and `Judge - counter + 1` qualifying cycles in a row, the
      channel stays put for all but the last cycle and changes state on it,
      with its counter back at 0 and its threshold re-anchored. */
  lemma FiresAfterStreak(ch: Channel, raws: seq<uint16>)
    requires ch.counter <= Judge(ch) < 0xFF
    requires |raws| == Judge(ch) - ch.counter + 1
    requires AllQualify(ch, raws)
    ensures Quiet(ch, raws[..|raws| - 1])
    ensures Run(ch, raws).touched != ch.touched
    ensures Run(ch, raws).counter == 0 && Anchored(Run(ch, raws))
  {
    var n := |raws| - 1;
    var pre := raws[..n];
    AllQualifyPrefix(ch, raws, n);
    StreakClimbs(ch, pre);
    assert raws == pre + [raws[n]];
    RunSnoc(ch, pre, raws[n]);
    AllQualifyLast(ch, raws);
  }

  /** Every prefix of a qualifying run qualifies. */
  lemma {:induction false} AllQualifyPrefix(ch: Channel, raws: seq<uint16>, n: nat)
    requires n <= |raws| && AllQualify(ch, raws)
    ensures AllQualify(ch, raws[..n])
    decreases n
  {
    if n > 0 {
      assert raws[..n][1..] == raws[1..][..n - 1];
      AllQualifyPrefix(Step(ch, raws[0]), raws[1..], n - 1);
    }
  }

  /** The last cycle of a qualifying run qualifies. */
  lemma {:induction false} AllQualifyLast(ch: Channel, raws: seq<uint16>)
    requires |raws| > 0 && AllQualify(ch, raws)
    ensures StepQualifies(Run(ch, raws[..|raws| - 1]), raws[|raws| - 1])
    decreases |raws|
  {
    if |raws| > 1 {
      AllQualifyLast(Step(ch, raws[0]), raws[1..]);
      assert raws[1..][..|raws| - 2] == raws[..|raws| - 1][1..];
    }
  }

  /** With the judge count of the current state at 255 the strict test can
      never fire: the 8-bit counter wraps from 255 to 0 instead of reaching
      256, so the channel stays in that state. */
  lemma {:induction false} MaxJudgeNeverFires(ch: Channel, raws: seq<uint16>)
    requires Judge(ch) == 0xFF
    ensures Quiet(ch, raws)
    ensures Run(ch, raws).touched == ch.touched
    decreases |raws|
  {
    if |raws| > 0 {
      MaxJudgeNeverFires(Step(ch, raws[0]), raws[1..]);
    }
  }
}
