/** The throughput chart's scale, over real numbers. */
module ChartModel {
  import opened Results

  const MOST: nat := 4
  const UNITS: nat := 5

  datatype Scale = Scale(step: real, steps: nat)
  {
    function Top(): real {
      step * steps as real
    }
  }

  function Ceiling(x: real): int {
    -(-x).Floor
  }

  /** How many steps of this size cover the peak, two at the least. */
  function StepsFor(peak: real, step: real): nat
    requires step > 0.0
  {
    var n := Ceiling(peak / step);
    if n < 2 then 2 else n
  }

  /** 1, 2, 5, 10, ..., 500. */
  function Size(i: nat): real {
    match i
    case 0 => 1.0
    case 1 => 2.0
    case 2 => 5.0
    case 3 => 10.0
    case 4 => 20.0
    case 5 => 50.0
    case 6 => 100.0
    case 7 => 200.0
    case _ => 500.0
  }

  /** KB, MB, ... */
  function Unit(u: nat): (r: real)
    ensures r >= 1024.0
  {
    if u == 0 then 1024.0 else 1024.0 * Unit(u - 1)
  }

  /** The k-th step of the ladder. */
  function Ladder(k: nat): (r: real)
    ensures r >= 1024.0
  {
    LadderIsLarge(k);
    Size(k % 9) * Unit(k / 9)
  }

  lemma LadderIsLarge(k: nat)
    ensures Size(k % 9) * Unit(k / 9) >= 1024.0
  {
    var u := Unit(k / 9);
    assert Size(k % 9) >= 1.0;
    assert (Size(k % 9) - 1.0) * u >= 0.0;
  }

  predicate Fits(peak: real, k: nat) {
    StepsFor(peak, Ladder(k)) <= MOST
  }

  /** The first step of the ladder, from the k-th on, of which at most four cover the peak. */
  function ScaleFrom(peak: real, k: nat): Scale
    requires k <= 9 * UNITS
    decreases 9 * UNITS - k
  {
    if k == 9 * UNITS then Scale(peak / MOST as real, MOST)
    else if Fits(peak, k) then Scale(Ladder(k), StepsFor(peak, Ladder(k)))
    else ScaleFrom(peak, k + 1)
  }

  function ScaleOf(peak: real): Scale {
    ScaleFrom(peak, 0)
  }

  lemma LadderAt(u: nat, i: nat)
    requires i < 9
    ensures Ladder(9 * u + i) == Size(i) * Unit(u)
  {
    hide Size, Unit;
    var k := 9 * u + i;
    Split(u, i);
    assert k % 9 == i && k / 9 == u;
  }

  lemma Split(u: nat, i: nat)
    requires i < 9
    ensures (9 * u + i) % 9 == i && (9 * u + i) / 9 == u
  {
  }

  method FindScale(peak: real) returns (scale: Scale)
    ensures scale == ScaleOf(peak)
  {
    hide StepsFor, Ladder, Size;
    var unit, u := 1024.0, 0;
    assert ScaleOf(peak) == ScaleFrom(peak, 0);
    while u < UNITS
      invariant 0 <= u <= UNITS && unit == Unit(u)
      invariant ScaleOf(peak) == ScaleFrom(peak, 9 * u)
    {
      for i := 0 to 9
        invariant ScaleOf(peak) == ScaleFrom(peak, 9 * u + i)
      {
        LadderAt(u, i);
        var step := Size(i) * unit;
        var steps := StepsFor(peak, step);
        if steps <= MOST {
          return Scale(step, steps);
        }
      }
      unit := unit * 1024.0;
      u := u + 1;
      assert unit == Unit(u);
    }
    return Scale(peak / MOST as real, MOST);
  }

  function Rescaled(current: Option<Scale>, peak: real): Scale {
    if current.Some? && peak <= current.value.Top() && peak >= current.value.Top() * 0.4 then current.value
    else ScaleOf(peak)
  }

  // ---------- What the scale guarantees ----------

  lemma Ceil(x: real)
    ensures (Ceiling(x) as real) - 1.0 < x <= Ceiling(x) as real
  {
  }

  /** The steps cover the peak, and no more than four do so exactly when four would. */
  lemma StepsCover(peak: real, step: real)
    requires step > 0.0
    ensures var n := StepsFor(peak, step);
            n >= 2 && peak <= step * n as real && (n <= MOST <==> peak <= 4.0 * step)
  {
    var n, q := StepsFor(peak, step), peak / step;
    Ceil(q);
    Multiplied(q, peak, step);
    Scaled(q, n as real, step);
    Scaled(q, 4.0, step);
    Scaled(4.0, q, step);
  }

  /** One step fewer would not cover the peak, unless two are enough. */
  lemma StepsAreNeeded(peak: real, step: real)
    requires step > 0.0 && StepsFor(peak, step) > 2
    ensures (StepsFor(peak, step) as real - 1.0) * step < peak
  {
    var q := peak / step;
    Ceil(q);
    Multiplied(q, peak, step);
    Scaled(StepsFor(peak, step) as real - 1.0, q, step);
  }

  lemma Multiplied(q: real, peak: real, step: real)
    requires step > 0.0 && q == peak / step
    ensures q * step == peak
  {
  }

  lemma Scaled(a: real, b: real, step: real)
    requires step > 0.0
    ensures a <= b ==> a * step <= b * step
    ensures a < b ==> a * step < b * step
  {
    assert (b - a) * step == b * step - a * step;
    if a <= b { assert (b - a) * step >= 0.0; }
    if a < b { assert (b - a) * step > 0.0; }
  }

  /** The sizes are 1, 2 and 5 times a power of ten, and each unit is 1024 of the one before. */
  lemma SizesAre125(i: nat, u: nat)
    ensures Size(0) == 1.0 && Size(1) == 2.0 && Size(2) == 5.0
    ensures i < 6 ==> Size(i + 3) == 10.0 * Size(i)
    ensures Unit(0) == 1024.0 && Unit(u + 1) == 1024.0 * Unit(u)
  {
  }

  lemma LadderRises(k: nat)
    ensures Ladder(k) < Ladder(k + 1) <= 2.5 * Ladder(k)
  {
    var i, u := k % 9, k / 9;
    if i == 8 {
      assert (k + 1) % 9 == 0 && (k + 1) / 9 == u + 1;
    } else {
      assert (k + 1) % 9 == i + 1 && (k + 1) / 9 == u;
    }
  }

  /** Where the search ends: at the first step of which four cover the peak, or past the ladder. */
  lemma {:induction false} FoundAt(peak: real, k: nat) returns (j: nat)
    requires k <= 9 * UNITS
    ensures k <= j <= 9 * UNITS
    ensures forall i | k <= i < j :: 4.0 * Ladder(i) < peak
    ensures j < 9 * UNITS ==> peak <= 4.0 * Ladder(j)
    ensures ScaleFrom(peak, k) == ScaleAt(peak, j)
    decreases 9 * UNITS - k
  {
    hide StepsFor, Ladder;
    j := k;
    if k < 9 * UNITS {
      StepsCover(peak, Ladder(k));
      if !Fits(peak, k) {
        j := FoundAt(peak, k + 1);
      }
    }
  }

  function ScaleAt(peak: real, j: nat): Scale {
    if j >= 9 * UNITS then Scale(peak / MOST as real, MOST) else Scale(Ladder(j), StepsFor(peak, Ladder(j)))
  }

  /** Two to four steps that cover the peak, and the smallest step of the ladder that can: four of any
      smaller one fall short. Past the ladder the peak itself is the top. */
  lemma ScaleCovers(peak: real)
    ensures var scale := ScaleOf(peak);
            2 <= scale.steps <= 4 && peak <= scale.Top()
            && (forall i: nat | i < 9 * UNITS && Ladder(i) < scale.step :: 4.0 * Ladder(i) < peak)
            && (if peak <= 4.0 * Ladder(44) then exists j: nat | j < 45 :: scale.step == Ladder(j) else scale.Top() == peak)
  {
    hide Ladder, StepsFor, ScaleFrom;
    var j := FoundAt(peak, 0);
    if j < 9 * UNITS {
      StepsCover(peak, Ladder(j));
      if j < 44 { LadderAscends(j, 44); }
      forall i: nat | i < 9 * UNITS && Ladder(i) < Ladder(j)
        ensures 4.0 * Ladder(i) < peak
      {
        if j < i { LadderAscends(j, i); }
      }
    } else {
      assert ScaleOf(peak) == Scale(peak / 4.0, 4);
      forall i: nat | i < 9 * UNITS
        ensures 4.0 * Ladder(i) < peak
      {
      }
    }
  }

  lemma {:induction false} LadderAscends(i: nat, j: nat)
    requires i < j
    ensures Ladder(i) < Ladder(j)
  {
    LadderRises(j - 1);
    if i < j - 1 { LadderAscends(i, j - 1); }
  }

  /** A higher peak never gets a lower top. */
  lemma ScaleIsMonotone(low: real, high: real)
    requires low <= high
    ensures ScaleOf(low).Top() <= ScaleOf(high).Top()
  {
    var i := FoundAt(low, 0);
    var j := FoundAt(high, 0);
    hide Ladder, StepsFor, ScaleFrom, ScaleAt, Scale.Top;
    assert i <= j;
    if i == j {
      SameStepIsMonotone(low, high, i);
    } else {
      assert 4.0 * Ladder(i) < high;
      TopIsAtMost(low, i);
      ScaleCovers(high);
    }
  }

  lemma QuotientRises(low: real, high: real, step: real)
    requires low <= high && step > 0.0
    ensures low / step <= high / step
  {
    var p, q := low / step, high / step;
    Multiplied(p, low, step);
    Multiplied(q, high, step);
    Scaled(q, p, step);
  }

  lemma CeilingRises(p: real, q: real)
    requires p <= q
    ensures Ceiling(p) <= Ceiling(q)
  {
    Ceil(p);
    Ceil(q);
  }

  lemma StepsAreMonotone(low: real, high: real, step: real)
    requires low <= high && step > 0.0
    ensures step * StepsFor(low, step) as real <= step * StepsFor(high, step) as real
  {
    var n, m := StepsFor(low, step), StepsFor(high, step);
    QuotientRises(low, high, step);
    CeilingRises(low / step, high / step);
    assert n <= m;
    hide StepsFor;
    Scaled(n as real, m as real, step);
  }

  lemma SameStepIsMonotone(low: real, high: real, k: nat)
    requires low <= high
    ensures ScaleAt(low, k).Top() <= ScaleAt(high, k).Top()
  {
    hide Ladder, StepsFor;
    if k < 9 * UNITS { StepsAreMonotone(low, high, Ladder(k)); }
  }

  lemma TopIsAtMost(peak: real, k: nat)
    requires k < 9 * UNITS && peak <= 4.0 * Ladder(k)
    ensures ScaleAt(peak, k).Top() <= 4.0 * Ladder(k)
  {
    hide Ladder, StepsFor;
    StepsCover(peak, Ladder(k));
    Scaled(StepsFor(peak, Ladder(k)) as real, 4.0, Ladder(k));
  }

  /** Above four of the finest steps the top is less than half again the peak. */
  lemma ScaleIsTight(peak: real)
    requires peak > 4096.0
    ensures ScaleOf(peak).Top() < 1.5 * peak
  {
    var j := FoundAt(peak, 0);
    FinestStep();
    hide Ladder, StepsFor, ScaleFrom;
    if j < 9 * UNITS {
      assert j >= 1 && 4.0 * Ladder(j - 1) < peak;
      FittedIsTight(peak, j);
    }
  }

  lemma FinestStep()
    ensures Ladder(0) == 1024.0
  {
  }

  lemma FittedIsTight(peak: real, k: nat)
    requires 1 <= k < 9 * UNITS && 4.0 * Ladder(k - 1) < peak <= 4.0 * Ladder(k)
    ensures ScaleAt(peak, k).Top() < 1.5 * peak
  {
    hide Ladder, StepsFor;
    var step, n := Ladder(k), StepsFor(peak, Ladder(k));
    LadderRises(k - 1);
    assert ScaleAt(peak, k).Top() == step * n as real;
    hide Scale.Top, ScaleAt;
    assert 1.6 * step < peak;
    StepsCover(peak, step);
    if n > 2 { StepsAreNeeded(peak, step); }
    Tight(peak, step, n);
  }

  lemma Tight(peak: real, step: real, n: nat)
    requires step > 0.0 && 2 <= n <= 4
    requires n > 2 ==> (n as real - 1.0) * step < peak
    requires n == 2 ==> 1.6 * step < peak
    ensures step * n as real < 1.5 * peak
  {
    if n == 2 {
    } else if n == 3 {
      assert (n as real - 1.0) * step == 2.0 * step;
    } else {
      assert (n as real - 1.0) * step == 3.0 * step;
    }
  }

  /** Whatever is on screen, the scale shown next covers the peak, and above 4 KB/s its top is at most two
      and a half times the peak. */
  lemma RescaledFits(current: Option<Scale>, peak: real)
    ensures peak <= Rescaled(current, peak).Top()
    ensures peak > 4096.0 ==> Rescaled(current, peak).Top() <= 2.5 * peak
  {
    hide ScaleOf, Scale.Top;
    ScaleCovers(peak);
    if peak > 4096.0 { ScaleIsTight(peak); }
  }

  /** So a scale fitted to a peak stays while the peak wobbles down to three fifths of it. */
  lemma WobbleNeverRescales(fitted: real, peak: real)
    requires fitted > 4096.0 && 0.6 * fitted <= peak <= fitted
    ensures Rescaled(Some(ScaleOf(fitted)), peak) == ScaleOf(fitted)
  {
    ScaleIsTight(fitted);
    ScaleCovers(fitted);
  }
}
