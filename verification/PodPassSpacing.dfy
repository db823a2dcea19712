/**
 How a max age and a pass frequency fit together (podPassMaxAgeFloor,
 podPassEveryThatFits), in the agent's 64-bit durations, and what that means for
 a run of the pod pass.
 */
module PodPassSpacing {
  import opened PodPass

  /** Two's complement 64-bit wrap-around. */
  function Wrap(x: int): (r: int)
    ensures -MAX_INT64 - 1 <= r <= MAX_INT64
    ensures -MAX_INT64 - 1 <= x <= MAX_INT64 ==> r == x
  {
    var m := x % 0x1_0000_0000_0000_0000;
    if m > MAX_INT64 then m - 0x1_0000_0000_0000_0000 else m
  }

  function MinTickSpacing(interval: int): int {
    interval - interval / 10
  }

  /** jitterBy: the spacing for a draw n of 0 to interval/5. */
  function JitterBy(interval: int, n: int): int {
    Wrap(MinTickSpacing(interval) + n)
  }

  /** The longest spacing, were durations unbounded: 11/10 of the interval. */
  function Longest(interval: int): int {
    MinTickSpacing(interval) + interval / 5
  }

  /** Every draw spaces two ticks by no more than the longest spacing, and by
      no less than the shortest, when the longest fits a duration. */
  lemma {:induction false} JitterWithin(interval: int, n: int)
    requires 0 < interval && Longest(interval) <= MAX_INT64 && 0 <= n <= interval / 5
    ensures MinTickSpacing(interval) <= JitterBy(interval, n) <= Longest(interval)
    ensures JitterBy(interval, interval / 5) == Longest(interval)
    ensures 9 * interval <= 10 * MinTickSpacing(interval) < 9 * interval + 10
    ensures 11 * interval - 10 < 10 * Longest(interval) < 11 * interval + 10
  {
  }

  function MaxAgeFloor(interval: int, every: int): int {
    if every <= 1 then 0
    else
      var spacing := JitterBy(interval, interval / 5);
      var n := every - 1;
      if spacing > 0 && n > MAX_INT64 / spacing then MAX_INT64 else Wrap(n * spacing)
  }

  function EveryThatFits(interval: int, maxAge: int): int {
    var spacing := JitterBy(interval, interval / 5);
    if spacing <= 0 || maxAge <= spacing then 1
    else
      var n := (maxAge - 1) / spacing;
      if n >= MAX_INT64 - 1 then MAX_INT64 else 1 + n
  }

  function Min(a: int, b: int): int {
    if a < b then a else b
  }

  lemma {:induction false} QuotientBelow(n: int, d: int, m: int)
    requires d > 0
    ensures n > m / d <==> n * d > m
  {
    assert m == (m / d) * d + m % d;
    if n > m / d {
      assert n * d >= (m / d + 1) * d;
    } else {
      assert n * d <= (m / d) * d;
    }
  }

  lemma {:induction false} ProductGrows(n: int, m: int, d: int)
    requires n <= m && d >= 0
    ensures n * d <= m * d
  {
  }

  /** The floor is every-1 longest spacings, saturated at the largest duration. */
  lemma {:induction false} FloorIsSaturated(interval: int, every: int)
    requires 0 < interval && Longest(interval) <= MAX_INT64 && 1 < every <= MAX_INT64
    ensures MaxAgeFloor(interval, every) == Min(MAX_INT64, (every - 1) * Longest(interval))
  {
    var s := Longest(interval);
    JitterWithin(interval, interval / 5);
    QuotientBelow(every - 1, s, MAX_INT64);
    ProductGrows(0, every - 1, s);
  }

  /** It saturates, for every setting, if and only if the longest spacing itself
      fits: an interval so long that 11/10 of it does not wraps the spacing. */
  lemma {:induction false} FloorSaturatesExactly(interval: int)
    requires 0 < interval <= MAX_INT64
    ensures Longest(interval) <= MAX_INT64 <==>
            forall every :: 1 < every <= MAX_INT64 ==>
                              MaxAgeFloor(interval, every) == Min(MAX_INT64, (every - 1) * Longest(interval))
  {
    if Longest(interval) <= MAX_INT64 {
      forall every | 1 < every <= MAX_INT64
        ensures MaxAgeFloor(interval, every) == Min(MAX_INT64, (every - 1) * Longest(interval))
      {
        FloorIsSaturated(interval, every);
      }
    } else {
      assert JitterBy(interval, interval / 5) < 0;
      assert MaxAgeFloor(interval, 2) < 0;
    }
  }

  /** The longest interval a duration can hold gives a negative floor, which every
      max age exceeds. */
  lemma {:induction false} FloorWraps()
    ensures Longest(MAX_INT64) > MAX_INT64 && MaxAgeFloor(MAX_INT64, 2) == -8301034833169298228
  {
    assert Longest(MAX_INT64) == 10145709240540253388;
    assert JitterBy(MAX_INT64, MAX_INT64 / 5) == -8301034833169298228;
  }

  /** n spacings are below an age if and only if n is at most what fits before it. */
  lemma {:induction false} SpacingsBelow(n: int, s: int, age: int)
    requires n >= 1 && s > 0 && age > 0
    ensures n * s < age <==> n <= (age - 1) / s
  {
    QuotientBelow(n, s, age - 1);
  }

  lemma {:induction false} NoneFits(n: int, s: int, age: int)
    requires n >= 1 && 0 < age <= s
    ensures n * s >= age
  {
    ProductGrows(1, n, s);
  }

  /** The advice is the largest frequency whose floor is below the max age, and
      1, which reuses nothing, when there is none. */
  lemma {:induction false} LargestThatFits(interval: int, maxAge: int, every: int)
    requires 0 < interval && Longest(interval) <= MAX_INT64 && 0 < maxAge <= MAX_INT64 && 1 < every <= MAX_INT64
    ensures 1 <= EveryThatFits(interval, maxAge) <= MAX_INT64
    ensures MaxAgeFloor(interval, every) < maxAge <==> every <= EveryThatFits(interval, maxAge)
  {
    var s := Longest(interval);
    JitterWithin(interval, interval / 5);
    FloorIsSaturated(interval, every);
    if maxAge <= s {
      NoneFits(every - 1, s, maxAge);
    } else {
      SpacingsBelow(every - 1, s, maxAge);
      QuotientAtMost(maxAge - 1, s);
    }
  }

  lemma {:induction false} QuotientAtMost(m: int, d: int)
    requires d > 0 && m >= 0
    ensures 0 <= m / d <= m
  {
    QuotientBelow(m, d, m);
    assert m == (m / d) * d + m % d;
    ProductGrows(1, d, m / d);
  }

  /* ---------- a run whose ticks keep to the spacing ---------- */

  /** Ticks i to n each see kube-system and the same releases, no further apart
      than the longest spacing. */
  ghost predicate Steady(interval: int, ticks: seq<Tick>, i: nat, n: nat)
    requires i <= n < |ticks|
  {
    && ticks[i].now <= ticks[i].start
    && (forall k :: i < k <= n ==> ticks[k].sysRead && ticks[k].sig == ticks[i].sig)
    && (forall k :: i < k <= n ==> ticks[k].now - ticks[k - 1].now <= Longest(interval))
  }

  lemma {:induction false} SteadyAge(interval: int, ticks: seq<Tick>, i: nat, n: nat)
    requires i <= n < |ticks| && Steady(interval, ticks, i, n)
    ensures ticks[n].now - ticks[i].start <= (n - i) * Longest(interval)
  {
    if n != i {
      SteadyAge(interval, ticks, i, n - 1);
      assert (n - i) * Longest(interval) == (n - 1 - i) * Longest(interval) + Longest(interval);
    }
  }

  /** The max age lets a pass reach its every-1 reuses: there is none, or it is
      above the floor. */
  predicate AgeFits(cfg: Config, interval: int) {
    cfg.maxAge <= 0 || MaxAgeFloor(interval, cfg.every) < cfg.maxAge
  }

  ghost predicate Settings(cfg: Config, interval: int) {
    0 < interval && Longest(interval) <= MAX_INT64 && 1 < cfg.every <= MAX_INT64 && cfg.maxAge <= MAX_INT64
  }

  /** Within every-1 ticks the age of a pass is below a max age above the floor. */
  lemma {:induction false} YoungEnough(cfg: Config, interval: int, d: nat, age: int)
    requires Settings(cfg, interval) && AgeFits(cfg, interval) && d < cfg.every && age <= d * Longest(interval)
    ensures cfg.maxAge > 0 ==> age < cfg.maxAge
  {
    FloorIsSaturated(interval, cfg.every);
    ProductGrows(d, cfg.every - 1, Longest(interval));
  }

  /** Whether a held pass is reused, read off what is held. */
  lemma {:induction false} ReusesHeld(cfg: Config, at: int, since: nat, sig: string, ev: PodEvidence, t: Tick)
    requires t.sysRead && t.sig == sig && cfg.every > 1 && (cfg.maxAge > 0 && since + 1 < cfg.every ==> t.now - at < cfg.maxAge <= MAX_INT64)
    ensures Reuses(cfg, Pass(at, since, sig, ev), t) <==> since + 1 < cfg.every
  {
  }

  lemma {:induction false} ReusedNext(cfg: Config, interval: int, ticks: seq<Tick>, i: nat, n: nat)
    requires i < n < |ticks| && Steady(interval, ticks, i, n) && PassSince(cfg, ticks, i, n)
    requires Settings(cfg, interval) && AgeFits(cfg, interval)
    ensures Reused(cfg, ticks, n) <==> n - i < cfg.every
  {
    HeldIsLastPass(cfg, ticks, i, n);
    if n - i < cfg.every {
      SteadyAge(interval, ticks, i, n);
      YoungEnough(cfg, interval, n - i, ticks[n].now - ticks[i].start);
    }
    ReusesHeld(cfg, ticks[i].start, n - i - 1, ticks[i].sig, Kept(Fresh(ticks[i])), ticks[n]);
  }

  /** A complete pass is reused by exactly the every-1 collections after it, when
      the max age is above the floor and the ticks keep to the spacing. */
  lemma {:induction false} ReusedEveryTime(cfg: Config, interval: int, ticks: seq<Tick>, i: nat, n: nat)
    requires i < n < |ticks| && n - i <= cfg.every && Steady(interval, ticks, i, n)
    requires !Reused(cfg, ticks, i) && ticks[i].complete
    requires Settings(cfg, interval) && AgeFits(cfg, interval)
    ensures Reused(cfg, ticks, n) <==> n - i < cfg.every
    ensures PassSince(cfg, ticks, i, n)
  {
    forall k | i < k < n
      ensures Reused(cfg, ticks, k)
    {
      ReusedEveryTime(cfg, interval, ticks, i, k);
    }
    ReusedNext(cfg, interval, ticks, i, n);
  }

  /* ---------- and only then ---------- */

  /** Collections one longest spacing apart, each of which could list the pods. */
  function Apart(spacing: int, n: nat): (r: seq<Tick>)
    ensures |r| == n && forall k :: 0 <= k < n ==> r[k] == TickAt(spacing, k)
  {
    seq(n, k requires 0 <= k < n => TickAt(spacing, k))
  }

  function TickAt(spacing: int, k: nat): Tick {
    Tick(k * spacing, k * spacing, "", true, NOTHING, [], true, true)
  }

  lemma {:induction false} ApartIsSteady(interval: int, n: nat)
    requires n > 0
    ensures Steady(interval, Apart(Longest(interval), n), 0, n - 1)
  {
    var ticks := Apart(Longest(interval), n);
    forall k | 0 < k <= n - 1
      ensures ticks[k].now - ticks[k - 1].now <= Longest(interval)
    {
      assert k * Longest(interval) == (k - 1) * Longest(interval) + Longest(interval);
    }
  }

  /** With a max age at or below the floor, ticks the longest spacing apart do not
      reuse a pass every-1 times. */
  lemma {:induction false} TooOldInTime(cfg: Config, interval: int) returns (ticks: seq<Tick>, k: nat)
    requires Settings(cfg, interval) && !AgeFits(cfg, interval)
    ensures |ticks| == cfg.every && Steady(interval, ticks, 0, cfg.every - 1)
    ensures !Reused(cfg, ticks, 0) && ticks[0].complete
    ensures 0 < k < cfg.every && !Reused(cfg, ticks, k)
  {
    ticks := Apart(Longest(interval), cfg.every);
    ApartIsSteady(interval, cfg.every);
    k := cfg.every - 1;
    if j :| 0 < j < k && !Reused(cfg, ticks, j) {
      k := j;
    } else {
      HeldIsLastPass(cfg, ticks, 0, k);
      FloorIsSaturated(interval, cfg.every);
    }
  }

  ghost predicate ReusedThroughout(cfg: Config, ticks: seq<Tick>)
    requires |ticks| == cfg.every
  {
    forall k :: 0 < k < cfg.every ==> Reused(cfg, ticks, k)
  }

  ghost predicate SteadyPass(cfg: Config, interval: int, ticks: seq<Tick>) {
    |ticks| == cfg.every > 1 && Steady(interval, ticks, 0, cfg.every - 1) && !Reused(cfg, ticks, 0) && ticks[0].complete
  }

  /** The floor is exact: every complete pass of ticks that keep to the spacing is
      reused by all the every-1 collections after it if and only if there is no
      max age or it is above the floor. */
  lemma {:induction false} FloorIsExact(cfg: Config, interval: int)
    requires Settings(cfg, interval)
    ensures AgeFits(cfg, interval) <==>
            forall ticks :: SteadyPass(cfg, interval, ticks) ==> ReusedThroughout(cfg, ticks)
  {
    if AgeFits(cfg, interval) {
      forall ticks, k | SteadyPass(cfg, interval, ticks) && 0 < k < cfg.every
        ensures Reused(cfg, ticks, k)
      {
        assert Steady(interval, ticks, 0, k);
        ReusedEveryTime(cfg, interval, ticks, 0, k);
      }
    } else {
      var ticks, k := TooOldInTime(cfg, interval);
      assert SteadyPass(cfg, interval, ticks) && !ReusedThroughout(cfg, ticks);
    }
  }
}
