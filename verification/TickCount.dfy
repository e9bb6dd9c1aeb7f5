/**
 * The clock for Windows before Vista (`WinNowFunctionImpl`): a 32-bit millisecond counter that wraps around
 * is extended by counting how often a sample is below the one before it.
 */
module TickCount {
  const TWO_TO_THE_32: int := 0x1_0000_0000

  newtype uint32 = x: int | 0 <= x < 0x1_0000_0000

  /** The two globals after a list of samples. */
  datatype Counter = Counter(lastNow: uint32, wraparounds: nat)
  {
    function Milliseconds(): int {
      wraparounds * TWO_TO_THE_32 + lastNow as int
    }
  }

  function Sampled(c: Counter, sample: uint32): Counter {
    Counter(sample, if sample < c.lastNow then c.wraparounds + 1 else c.wraparounds)
  }

  function After(samples: seq<uint32>): Counter {
    if samples == [] then Counter(0, 0) else Sampled(After(samples[..|samples| - 1]), samples[|samples| - 1])
  }

  class TickClock {
    var lastNow: uint32
    var wraparounds: nat
    ghost var samples: seq<uint32>

    ghost predicate Valid()
      reads this
    {
      Counter(lastNow, wraparounds) == After(samples)
    }

    constructor ()
      ensures Valid() && samples == []
    {
      lastNow, wraparounds, samples := 0, 0, [];
    }

    method Now(sample: uint32) returns (ms: int)
      requires Valid()
      modifies this
      ensures Valid() && samples == old(samples) + [sample]
      ensures ms == After(samples).Milliseconds()
    {
      if sample < lastNow {
        wraparounds := wraparounds + 1;
      }
      lastNow := sample;
      ms := wraparounds * TWO_TO_THE_32 + lastNow as int;
      samples := samples + [sample];
      assert samples[..|samples| - 1] == old(samples);
    }
  }

  /** Whatever is sampled, the clock never goes back. */
  lemma {:induction false} NeverGoesBack(samples: seq<uint32>, i: nat, j: nat)
    requires i <= j <= |samples|
    ensures After(samples[..i]).Milliseconds() <= After(samples[..j]).Milliseconds()
    decreases j
  {
    if i < j {
      NeverGoesBack(samples, i, j - 1);
      assert samples[..j][..j - 1] == samples[..j - 1];
      var before, after := After(samples[..j - 1]), After(samples[..j]);
      if after.lastNow < before.lastNow {
        assert after.Milliseconds()
            == before.Milliseconds() + TWO_TO_THE_32 + after.lastNow as int - before.lastNow as int;
      }
    }
  }

  predicate NonDecreasing(times: seq<nat>) {
    forall i, j :: 0 <= i < j < |times| ==> times[i] <= times[j]
  }

  /** What the 32-bit counter shows at these true times. */
  function Shown(times: seq<nat>): (samples: seq<uint32>)
    ensures |samples| == |times|
  {
    seq(|times|, i requires 0 <= i < |times| => (times[i] % TWO_TO_THE_32) as uint32)
  }

  /** The first call comes before the first wrap-around, and no two calls are a whole turn apart. */
  predicate OftenEnough(times: seq<nat>) {
    && (times != [] ==> times[0] < TWO_TO_THE_32)
    && forall i :: 0 < i < |times| ==> times[i] - times[i - 1] < TWO_TO_THE_32
  }

  predicate IsExact(times: seq<nat>) {
    forall n :: 0 < n <= |times| ==> After(Shown(times)[..n]).Milliseconds() == times[n - 1]
  }

  lemma {:induction false} ShownPrefix(times: seq<nat>, n: nat)
    requires n < |times|
    ensures After(Shown(times)[..n + 1]) == Sampled(After(Shown(times)[..n]), Shown(times)[n])
    ensures n > 0 ==> After(Shown(times)[..n]).lastNow == Shown(times)[n - 1]
  {
    assert Shown(times)[..n + 1][..n] == Shown(times)[..n];
    if n > 0 {
      assert Shown(times)[..n][n - 1] == Shown(times)[n - 1];
    }
  }

  /** One call is right after a right one exactly if less than a whole turn has passed. */
  lemma {:induction false} StepIsExactIff(before: nat, now: nat, wraparounds: nat)
    requires before <= now
    requires wraparounds * TWO_TO_THE_32 + before % TWO_TO_THE_32 == before
    ensures var c := Counter((before % TWO_TO_THE_32) as uint32, wraparounds);
      Sampled(c, (now % TWO_TO_THE_32) as uint32).Milliseconds() == now <==> now - before < TWO_TO_THE_32
  {
    var turns := now / TWO_TO_THE_32 - wraparounds;
    assert now == (wraparounds + turns) * TWO_TO_THE_32 + now % TWO_TO_THE_32;
  }

  /** For times that never decrease, the clock shows every one of them exactly if it is called often enough. */
  lemma {:induction false} ExactIffOftenEnough(times: seq<nat>)
    requires NonDecreasing(times)
    ensures IsExact(times) <==> OftenEnough(times)
  {
    if IsExact(times) {
      ExactNeedsOftenEnough(times);
    }
    if OftenEnough(times) {
      forall n | 0 < n <= |times| ensures After(Shown(times)[..n]).Milliseconds() == times[n - 1] {
        OftenEnoughIsExact(times, n);
      }
    }
  }

  lemma {:induction false} ExactNeedsOftenEnough(times: seq<nat>)
    requires NonDecreasing(times) && IsExact(times)
    ensures OftenEnough(times)
  {
    if times != [] {
      ShownPrefix(times, 0);
      assert After(Shown(times)[..1]).Milliseconds() == times[0];
      assert Shown(times)[..0] == [];
    }
    forall i | 0 < i < |times| ensures times[i] - times[i - 1] < TWO_TO_THE_32 {
      ShownPrefix(times, i);
      var before := After(Shown(times)[..i]);
      assert After(Shown(times)[..i]).Milliseconds() == times[i - 1];
      assert After(Shown(times)[..i + 1]).Milliseconds() == times[i];
      StepIsExactIff(times[i - 1], times[i], before.wraparounds);
    }
  }

  lemma {:induction false} OftenEnoughIsExact(times: seq<nat>, n: nat)
    requires NonDecreasing(times) && OftenEnough(times) && 0 < n <= |times|
    ensures After(Shown(times)[..n]).Milliseconds() == times[n - 1]
    decreases n
  {
    ShownPrefix(times, n - 1);
    if n == 1 {
      assert Shown(times)[..0] == [];
    } else {
      OftenEnoughIsExact(times, n - 1);
      assert times[n - 2] <= times[n - 1];
      StepIsExactIff(times[n - 2], times[n - 1], After(Shown(times)[..n - 1]).wraparounds);
    }
  }
}
