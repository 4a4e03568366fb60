/** The report cadence of a short soak run: an interval is chosen so that exactly one
    aligned boundary falls into the run, and checked again after startup. */
module Schedule {
  import opened Counting

  const NEXT_MIN: int := 450
  const NEXT_MAX: int := 600
  const THIRD_FLOOR: int := 1050
  const INTERVAL_MIN: int := 600
  const INTERVAL_MAX: int := 3600
  const RUN: int := 900
  const EARLIEST: int := 395
  const LATEST: int := 700
  const STARTUP: real := 55.0

  /** A clock reading; booleans, infinities and non-numbers are refused. */
  datatype Epoch = Invalid | At(seconds: real)

  datatype Cadence = Cadence(interval: int, offset: int)

  /** Truncation towards zero. */
  function Whole(x: real): int { if x >= 0.0 then x.Floor else -((-x).Floor) }

  /** Seconds from a whole second to the next aligned boundary. */
  function NextOffset(second: int, interval: int): int
    requires interval > 0
  {
    if (-second) % interval == 0 then interval else (-second) % interval
  }

  predicate Qualifies(second: int, interval: int)
    requires interval > 0
  {
    var offset := NextOffset(second, interval);
    NEXT_MIN <= offset <= NEXT_MAX && offset + interval >= THIRD_FLOOR
  }

  predicate Aligned(t: int, interval: int)
    requires interval > 0
  {
    t % interval == 0
  }

  /** The first boundary strictly after the given second. */
  predicate FirstAfter(second: int, interval: int, t: int)
    requires interval > 0
  {
    t > second && Aligned(t, interval) && forall u :: second < u < t ==> !Aligned(u, interval)
  }

  lemma Quotient(a: int, n: int, k: int, r: int)
    requires n > 0 && 0 <= r < n && a == k * n + r
    ensures a % n == r
  {
    var d := a / n - k;
    assert d * n == r - a % n;
  }

  lemma BoundaryAligned(second: int, interval: int)
    requires interval > 0
    ensures 1 <= NextOffset(second, interval) <= interval
    ensures Aligned(second + NextOffset(second, interval), interval)
  {
    var r, q := (-second) % interval, (-second) / interval;
    assert second + r == (-q) * interval;
    Quotient(second + r, interval, -q, 0);
    Quotient(second + r + interval, interval, 1 - q, 0);
  }

  /** Two boundaries are a whole number of intervals apart. */
  lemma BoundariesApart(interval: int, t: int, u: int)
    requires interval > 0 && Aligned(t, interval) && Aligned(u, interval) && t < u
    ensures u - t >= interval
  {
    var k := u / interval - t / interval;
    assert u - t == k * interval;
  }

  /** The computed offset leads to the first boundary after the second, and only it does. */
  lemma OffsetIsFirst(second: int, interval: int, offset: int)
    requires interval > 0
    ensures offset == NextOffset(second, interval) <==> FirstAfter(second, interval, second + offset)
  {
    BoundaryAligned(second, interval);
    var first := second + NextOffset(second, interval);
    forall u | second < u < first ensures !Aligned(u, interval) {
      if Aligned(u, interval) {
        BoundariesApart(interval, u, first);
      }
    }
    assert FirstAfter(second, interval, first);
    if FirstAfter(second, interval, second + offset) {
      assert !(second < first < second + offset);
      assert !(second < second + offset < first);
    }
  }

  /** The smallest qualifying interval, or nothing when none qualifies. */
  method SelectCadence(now: Epoch) returns (cadence: Option<Cadence>)
    ensures cadence.None? <==>
            now.Invalid? || forall i :: INTERVAL_MIN <= i <= INTERVAL_MAX ==> !Qualifies(Whole(now.seconds), i)
    ensures cadence.Some? ==>
              && INTERVAL_MIN <= cadence.value.interval <= INTERVAL_MAX
              && Qualifies(Whole(now.seconds), cadence.value.interval)
              && cadence.value.offset == NextOffset(Whole(now.seconds), cadence.value.interval)
              && forall i :: INTERVAL_MIN <= i < cadence.value.interval ==> !Qualifies(Whole(now.seconds), i)
  {
    if now.Invalid? {
      return None;
    }
    var second := Whole(now.seconds);
    for i := INTERVAL_MIN to INTERVAL_MAX + 1
      invariant forall k :: INTERVAL_MIN <= k < i ==> !Qualifies(second, k)
    {
      var offset := if (-second) % i == 0 then i else (-second) % i;
      if NEXT_MIN <= offset <= NEXT_MAX && offset + i >= THIRD_FLOOR {
        assert Qualifies(second, i);
        return Some(Cadence(i, offset));
      }
    }
    return None;
  }

  /** The bounds the evidence manifest is checked against. */
  predicate ManifestBounds(c: Cadence) {
    600 <= c.interval <= 3600 && 450 <= c.offset <= 600 && c.offset + c.interval >= 1050
  }

  /** Whatever the selector returns at a moment. */
  predicate Selected(now: real, c: Cadence) {
    INTERVAL_MIN <= c.interval <= INTERVAL_MAX && Qualifies(Whole(now), c.interval)
      && c.offset == NextOffset(Whole(now), c.interval)
  }

  predicate RuntimeAccepts(interval: int, second: int) {
    60 <= interval <= 86400
    && var offset := NextOffset(second, interval);
       EARLIEST <= offset <= LATEST && offset + interval > RUN
  }

  method CheckRuntime(interval: int, now: Epoch) returns (offset: Option<int>)
    ensures offset.Some? <==> now.At? && RuntimeAccepts(interval, Whole(now.seconds))
    ensures offset.Some? ==> FirstAfter(Whole(now.seconds), interval, Whole(now.seconds) + offset.value)
  {
    if interval < 60 || interval > 86400 || now.Invalid? {
      return None;
    }
    var second := Whole(now.seconds);
    var next := if (-second) % interval == 0 then interval else (-second) % interval;
    if !(395 <= next <= 700 && next + interval > 900) {
      return None;
    }
    OffsetIsFirst(second, interval, next);
    return Some(next);
  }

  lemma SelectedIsInManifest(now: real, c: Cadence)
    requires Selected(now, c)
    ensures ManifestBounds(c) && FirstAfter(Whole(now), c.interval, Whole(now) + c.offset)
  {
    OffsetIsFirst(Whole(now), c.interval, c.offset);
  }

  /** Waiting less than the offset leaves the same boundary, that much nearer. */
  lemma OffsetAfterDelay(second: int, interval: int, delta: int)
    requires interval > 0 && 0 <= delta < NextOffset(second, interval)
    ensures NextOffset(second + delta, interval) == NextOffset(second, interval) - delta
  {
    var offset := NextOffset(second, interval);
    OffsetIsFirst(second, interval, offset);
    var t := second + offset;
    assert FirstAfter(second + delta, interval, t);
    assert t == second + delta + (offset - delta);
    OffsetIsFirst(second + delta, interval, offset - delta);
  }

  /** A selected cadence survives any startup delay of up to 55 seconds. */
  lemma SelectedSurvivesStartup(now: real, c: Cadence, delay: real)
    requires Selected(now, c) && 0.0 <= delay <= STARTUP
    ensures RuntimeAccepts(c.interval, Whole(now + delay))
  {
    OffsetAfterDelay(Whole(now), c.interval, Whole(now + delay) - Whole(now));
  }

  /** Before the boundary passes, the check accepts exactly the delays that leave it at least
      395 seconds away. */
  lemma StartupBudget(now: real, c: Cadence, delay: real)
    requires Selected(now, c) && 0.0 <= delay && Whole(now + delay) - Whole(now) < c.offset
    ensures RuntimeAccepts(c.interval, Whole(now + delay))
            <==> Whole(now + delay) - Whole(now) <= c.offset - EARLIEST
                 && c.offset + c.interval - (Whole(now + delay) - Whole(now)) > RUN
  {
    OffsetAfterDelay(Whole(now), c.interval, Whole(now + delay) - Whole(now));
  }

  /** One second more can be too much. */
  lemma FiftySixCanFail()
    ensures Selected(150.0, Cadence(600, 450)) && !RuntimeAccepts(600, Whole(206.0))
  {
    assert Whole(150.0) == 150 && Whole(206.0) == 206;
    assert (-150) % 600 == 450 && (-206) % 600 == 394;
  }

  /** A passing check leaves exactly one boundary in the run, at 395 seconds or later. */
  lemma ExactlyOneBoundary(interval: int, second: int, t: int)
    requires RuntimeAccepts(interval, second)
    ensures second < t <= second + RUN && Aligned(t, interval) <==> t == second + NextOffset(second, interval)
    ensures second + EARLIEST <= second + NextOffset(second, interval)
  {
    var first := second + NextOffset(second, interval);
    OffsetIsFirst(second, interval, NextOffset(second, interval));
    if first < t && Aligned(t, interval) {
      BoundariesApart(interval, first, t);
    }
  }

  // ------------------------------------------------------------ in terms of the boundary itself

  /** The next boundary is between these many seconds away, and the one after it late enough. */
  ghost predicate Ahead(second: int, interval: int, least: int, most: int, next: int)
    requires interval > 0
  {
    exists t :: FirstAfter(second, interval, t) && least <= t - second <= most && t + interval >= second + next
  }

  lemma AheadMeans(second: int, interval: int, least: int, most: int, next: int)
    requires interval > 0
    ensures var offset := NextOffset(second, interval);
            Ahead(second, interval, least, most, next) <==>
            least <= offset <= most && offset + interval >= next
  {
    var offset := NextOffset(second, interval);
    OffsetIsFirst(second, interval, offset);
    if t :| FirstAfter(second, interval, t) && least <= t - second <= most && t + interval >= second + next {
      OffsetIsFirst(second, interval, t - second);
    }
  }

  /** An interval qualifies exactly when the next boundary is 450 to 600 seconds away and the one
      after it 1050 or more. */
  lemma QualifiesMeans(second: int, interval: int)
    requires interval > 0
    ensures Qualifies(second, interval) <==> Ahead(second, interval, 450, 600, 1050)
  {
    AheadMeans(second, interval, 450, 600, 1050);
  }

  /** The check after startup accepts exactly the intervals of a minute to a day whose next boundary
      is 395 to 700 seconds away and whose second lies beyond the 900 seconds of the run. */
  lemma RuntimeMeans(second: int, interval: int)
    requires interval > 0
    ensures RuntimeAccepts(interval, second) <==>
            60 <= interval <= 86400 && Ahead(second, interval, 395, 700, 901)
  {
    AheadMeans(second, interval, 395, 700, 901);
  }

  /** A clock reading is cut to its whole seconds towards zero. */
  lemma WholeMeans(x: real, n: int)
    ensures n == Whole(x) <==>
            if x >= 0.0 then 0.0 <= x - n as real < 1.0 && n >= 0 else 0.0 <= n as real - x < 1.0 && n <= 0
  {
  }
}
