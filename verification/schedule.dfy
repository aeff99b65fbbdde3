/**
 * The trigger arithmetic of the bot's start-up: the next funding-reset hour (`next_run_hour`)
 * and the daily trigger offsets registered with the scheduler.
 */
module Schedule {
  import Config

  /** The first multiple of `timeframe` strictly after `hour`: `(1 + floor(hour / timeframe)) * timeframe`. */
  function NextResetBoundary(hour: nat, timeframe: nat): (n: nat)
    requires timeframe > 0
    ensures hour < n <= hour + timeframe
    ensures n % timeframe == 0
  {
    var q := hour / timeframe;
    assert hour == q * timeframe + hour % timeframe;
    MultipleMod(q + 1, timeframe);
    (1 + q) * timeframe
  }

  lemma MultipleMod(k: nat, m: nat)
    requires m > 0
    ensures (k * m) % m == 0
  {
    var q, r := (k * m) / m, (k * m) % m;
    assert k * m == q * m + r && 0 <= r < m;
    assert (k - q) * m == r;
    // k - q is neither at least 1 nor at most -1, since 0 <= r < m; a split on its sign is all Z3 needs.
    if k - q >= 1 {
    } else if k - q <= -1 {
    }
  }

  lemma MulMonotone(a: nat, b: nat, m: nat)
    requires a <= b
    ensures a * m <= b * m
  {
    assert b * m - a * m == (b - a) * m;
  }

  /**
   * `next_run_hour()` for the current UTC hour `hour`: the next reset boundary, wrapped into
   * the day by subtracting 24 once.
   */
  function NextRunHour(hour: nat, timeframe: nat): (r: int)
    requires hour < 24 && timeframe > 0
    ensures 0 <= r
    ensures r == NextResetBoundary(hour, timeframe) || r == NextResetBoundary(hour, timeframe) - 24
  {
    var next := NextResetBoundary(hour, timeframe);
    if next >= 24 then next - 24 else next
  }

  /**
   * When the reset cadence divides the day, the next run hour is an hour of the day and a
   * reset boundary, and before wrapping it lies strictly after `hour` and at most one
   * cadence later.
   */
  lemma {:induction false} NextRunHourIsResetHour(hour: nat, timeframe: nat)
    requires hour < 24 && timeframe > 0 && 24 % timeframe == 0
    ensures var r := NextRunHour(hour, timeframe);
            0 <= r < 24 && r % timeframe == 0
    ensures var n := NextResetBoundary(hour, timeframe);
            hour < n <= hour + timeframe && NextRunHour(hour, timeframe) == n % 24
  {
    var n := NextResetBoundary(hour, timeframe);
    DivisorAtMost(24, timeframe);
    if n >= 24 {
      assert n < 48;
      DifferenceOfMultiples(n, 24, timeframe);
    }
  }

  lemma DivisorAtMost(a: nat, d: nat)
    requires a > 0 && d > 0 && a % d == 0
    ensures d <= a
  {
  }

  lemma DifferenceOfMultiples(a: nat, b: nat, m: nat)
    requires m > 0 && a >= b && a % m == 0 && b % m == 0
    ensures (a - b) % m == 0
  {
    assert a == (a / m) * m && b == (b / m) * m;
    assert a - b == (a / m - b / m) * m;
    MultipleMod(a / m - b / m, m);
  }

  /** With the bot's eight-hour cadence the next run hour is 0, 8 or 16. */
  lemma ConfiguredNextRunHour(hour: nat)
    requires hour < 24
    ensures NextRunHour(hour, Config.FundingResetTimeframe) in {0, 8, 16}
  {
    NextRunHourIsResetHour(hour, Config.FundingResetTimeframe);
  }

  /** `math.ceil(a / d)` for positive integers. */
  function CeilDiv(a: nat, d: nat): (r: nat)
    requires d > 0
    ensures r * d >= a
    ensures r == 0 || (r - 1) * d < a
  {
    var r := (a + d - 1) / d;
    assert a + d - 1 == r * d + (a + d - 1) % d;
    r
  }

  /**
   * The loop `for k in range(math.ceil(24 / timeframe))` registering one daily trigger per
   * reset: the hour offsets `k * timeframe` from the first trigger.
   */
  function TriggerOffsets(timeframe: nat): (offsets: seq<nat>)
    requires timeframe > 0
    ensures |offsets| == CeilDiv(24, timeframe)
    ensures forall k :: 0 <= k < |offsets| ==> offsets[k] < 24 && offsets[k] % timeframe == 0
    ensures forall k :: 0 <= k < |offsets| - 1 ==> offsets[k] < offsets[k + 1]
  {
    var count := CeilDiv(24, timeframe);
    var offsets := seq(count, k requires 0 <= k < count => k * timeframe);
    forall k | 0 <= k < count ensures offsets[k] < 24 && offsets[k] % timeframe == 0 {
      MultipleMod(k, timeframe);
      MulMonotone(k, count - 1, timeframe);
    }
    forall k | 0 <= k < count - 1 ensures offsets[k] < offsets[k + 1] {
      assert (k + 1) * timeframe == k * timeframe + timeframe;
    }
    offsets
  }

  /** Every reset hour of the day gets exactly one trigger offset. */
  lemma {:induction false} TriggerOffsetsCoverDay(timeframe: nat, h: nat)
    requires timeframe > 0 && h < 24 && h % timeframe == 0
    ensures h in TriggerOffsets(timeframe)
  {
    var offsets := TriggerOffsets(timeframe);
    var k := h / timeframe;
    assert h == k * timeframe;
    assert k < |offsets|;
    assert offsets[k] == h;
  }
}
