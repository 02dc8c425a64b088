/** The recurrences behind a statistic, over the reals: running mean and sum of squared deviations (Welford 1962),
    and running extrema (lib/statistics.c:163-247). */
module RunningStatistics {

  datatype Reading = Reading(x: real, time: nat)

  datatype Kind = MIN | MAX | AVG | STDEV

  /** A double as far as the statistics need it; Root(a) is the square root of a. */
  datatype Value = NegInfinity | PosInfinity | Fin(r: real) | Root(arg: real) | NotANumber

  // ----- What the statistics mean -----

  /** The sum of f over all readings. */
  function Total(h: seq<Reading>, f: Reading -> real): real
  {
    if h == [] then 0.0 else Total(h[..|h| - 1], f) + f(h[|h| - 1])
  }

  function Number(): Reading -> real { (r: Reading) => r.x }

  function Sum(h: seq<Reading>): real { Total(h, Number()) }

  function Mean(h: seq<Reading>): real { if h == [] then 0.0 else Sum(h) / |h| as real }

  function Square(x: real): real { x * x }

  function SquareFrom(c: real): Reading -> real { (r: Reading) => Square(r.x - c) }

  /** The sum of the squared distances from c. */
  function Deviation(h: seq<Reading>, c: real): real { Total(h, SquareFrom(c)) }

  /** The sample standard deviation, undefined for a single sample. */
  function StandardDeviation(h: seq<Reading>): Value
  {
    RootOfQuotient(Deviation(h, Mean(h)), |h| as real)
  }

  predicate Better(kind: Kind, a: real, b: real) { if kind == MIN then a < b else a > b }

  /** h[k] is the extremum, and no earlier reading attains it. */
  predicate FirstExtremum(kind: Kind, h: seq<Reading>, k: nat)
    requires k < |h|
  {
    && (forall j :: 0 <= j < |h| ==> !Better(kind, h[j].x, h[k].x))
    && (forall j :: 0 <= j < k ==> Better(kind, h[k].x, h[j].x))
  }

  /** The value and instant kept for a history of readings. */
  predicate Extreme(kind: Kind, h: seq<Reading>, v: Value, instant: nat)
  {
    if h == [] then v == if kind == MIN then PosInfinity else NegInfinity
    else exists k :: 0 <= k < |h| && FirstExtremum(kind, h, k) && v == Fin(h[k].x) && instant == h[k].time
  }

  // ----- One step of the recurrence -----

  lemma MeanTimesCount(h: seq<Reading>)
    ensures Mean(h) * |h| as real == Sum(h)
  {
  }

  lemma TotalAppend(h: seq<Reading>, r: Reading, f: Reading -> real)
    ensures Total(h + [r], f) == Total(h, f) + f(r)
  {
    assert (h + [r])[..|h|] == h;
  }

  /** If f differs from g by an affine function of the reading, so do the totals. */
  lemma {:induction false} TotalAffine(h: seq<Reading>, n: real, f: Reading -> real, g: Reading -> real,
                                       a: real, b: real)
    requires n == |h| as real
    requires forall r :: f(r) == g(r) + a * r.x + b
    ensures Total(h, f) == Total(h, g) + a * Sum(h) + b * n
  {
    if h != [] {
      var t, x := h[..|h| - 1], h[|h| - 1].x;
      TotalAffine(t, n - 1.0, f, g, a, b);
      AffineStep(a, b, n, Sum(t), x);
    }
  }

  lemma AffineStep(a: real, b: real, n: real, s: real, x: real)
    ensures a * (s + x) + b * n == (a * s + b * (n - 1.0)) + (a * x + b)
  {
  }

  lemma SquareShift(x: real, c: real, c': real, d: real, a: real, b: real)
    requires c' == c + d && a == -2.0 * d && b == 2.0 * d * c + d * d
    ensures Square(x - c') == Square(x - c) + a * x + b
  {
  }

  /** Moving the reference point from c by d. */
  lemma DeviationShift(h: seq<Reading>, c: real, c': real, d: real, a: real, b: real)
    requires c' == c + d && a == -2.0 * d && b == 2.0 * d * c + d * d
    ensures Deviation(h, c') == Deviation(h, c) + a * Sum(h) + b * |h| as real
  {
    var f, g := SquareFrom(c'), SquareFrom(c);
    forall r: Reading
      ensures f(r) == g(r) + a * r.x + b
    {
      SquareShift(r.x, c, c', d, a, b);
    }
    TotalAffine(h, |h| as real, f, g, a, b);
  }

  lemma {:induction false} DeviationNotNegative(h: seq<Reading>, c: real)
    ensures Deviation(h, c) >= 0.0
  {
    if h != [] {
      DeviationNotNegative(h[..|h| - 1], c);
      assert SquareFrom(c)(h[|h| - 1]) == Square(h[|h| - 1].x - c) >= 0.0;
    }
  }

  function Product(a: real, b: real): real { a * b }

  /** The running mean after one more reading; `count` includes it. */
  function NextMean(mean: real, x: real, count: real): real
    requires count != 0.0
  {
    mean + (x - mean) / count
  }

  lemma NextMeanTimesCount(m: real, n: real, x: real, m': real)
    requires n >= 0.0 && m' == NextMean(m, x, n + 1.0)
    ensures m' * (n + 1.0) == m * n + x
  {
    var q := (x - m) / (n + 1.0);
    assert q * (n + 1.0) == x - m;
    assert (m + q) * (n + 1.0) == m * n + m + q * (n + 1.0);
  }

  lemma QuotientIs(m: real, k: real, t: real)
    requires k != 0.0 && m * k == t
    ensures t / k == m
  {
  }

  lemma MeanStep(h: seq<Reading>, r: Reading)
    ensures Mean(h + [r]) == NextMean(Mean(h), r.x, |h| as real + 1.0)
  {
    var n, m := |h| as real, Mean(h);
    var m' := NextMean(m, r.x, n + 1.0);
    TotalAppend(h, r, Number());
    MeanTimesCount(h);
    NextMeanTimesCount(m, n, r.x, m');
    assert |h + [r]| as real == n + 1.0;
    QuotientIs(m', n + 1.0, Sum(h + [r]));
  }

  /** The new mean is at distance q from the old and at distance q * n from the reading. */
  lemma MeanDistance(n: real, m: real, m': real, x: real, q: real)
    requires m' * (n + 1.0) == m * n + x && q == m' - m
    ensures x - m == q * (n + 1.0) && x - m' == q * n
  {
  }

  lemma ShiftFromMean(n: real, m: real, s: real, q: real)
    requires m * n == s
    ensures (-2.0 * q) * s + (2.0 * q * m + q * q) * n == n * (q * q)
  {
  }

  lemma DeviationFromNewMean(h: seq<Reading>, n: real, m: real, m': real, q: real)
    requires n == |h| as real && m * n == Sum(h) && m' == m + q
    ensures Deviation(h, m') == Deviation(h, m) + n * (q * q)
  {
    DeviationShift(h, m, m', q, -2.0 * q, 2.0 * q * m + q * q);
    ShiftFromMean(n, m, Sum(h), q);
  }

  lemma WelfordAlgebra(n: real, q: real, u: real, v: real)
    requires u == q * n && v == q * (n + 1.0)
    ensures n * (q * q) + Square(u) == Product(u, v)
  {
    assert (q * n) * (q * n) == n * (n * (q * q));
    assert (q * n) * (q * (n + 1.0)) == n * ((n + 1.0) * (q * q));
  }

  /** The recurrence for any two numbers that are the means. */
  lemma WelfordAt(h: seq<Reading>, r: Reading, n: real, m: real, m': real)
    requires n == |h| as real && m * n == Sum(h) && m' * (n + 1.0) == m * n + r.x
    ensures Deviation(h + [r], m') == Deviation(h, m) + Product(r.x - m', r.x - m)
  {
    var q := m' - m;
    MeanDistance(n, m, m', r.x, q);
    WelfordAlgebra(n, q, r.x - m', r.x - m);
    DeviationFromNewMean(h, n, m, m', q);
    TotalAppend(h, r, SquareFrom(m'));
  }

  /** The update of roll_sum keeps it the sum of squared deviations from the mean. */
  lemma WelfordStep(h: seq<Reading>, r: Reading)
    ensures Deviation(h + [r], Mean(h + [r]))
         == Deviation(h, Mean(h)) + Product(r.x - Mean(h + [r]), r.x - Mean(h))
  {
    var n, m, m' := |h| as real, Mean(h), Mean(h + [r]);
    MeanStep(h, r);
    MeanTimesCount(h);
    NextMeanTimesCount(m, n, r.x, m');
    WelfordAt(h, r, n, m, m');
  }

  lemma ExtremeStep(kind: Kind, h: seq<Reading>, r: Reading, v: Value, instant: nat)
    requires Extreme(kind, h, v, instant)
    ensures Extreme(kind, h + [r], if BetterThan(kind, r.x, v) then Fin(r.x) else v,
                    if BetterThan(kind, r.x, v) then r.time else instant)
  {
    var h' := h + [r];
    if h == [] {
      assert FirstExtremum(kind, h', 0);
    } else {
      var k :| 0 <= k < |h| && FirstExtremum(kind, h, k) && v == Fin(h[k].x) && instant == h[k].time;
      if BetterThan(kind, r.x, v) {
        assert FirstExtremum(kind, h', |h|);
      } else {
        assert FirstExtremum(kind, h', k);
      }
    }
  }

  /** The comparison of a reading with the stored value, infinities included. */
  predicate BetterThan(kind: Kind, x: real, v: Value)
  {
    match v
    case PosInfinity => kind == MIN
    case NegInfinity => kind != MIN
    case Fin(r) => Better(kind, x, r)
    case _ => false
  }

  // ----- One object's share of a statistic -----

  /** The slots of one object: values[i], instants[i], roll_mean[i], roll_sum[i]. */
  datatype Slot = Slot(value: Value, instant: nat, mean: real, sum: real)

  predicate Summarises(kind: Kind, s: Slot, h: seq<Reading>)
  {
    match kind
    case AVG => s.value == Fin(Mean(h))
    case STDEV =>
      && s.mean == Mean(h) && s.sum == Deviation(h, Mean(h))
      && s.value == if h == [] then Fin(0.0) else StandardDeviation(h)
    case _ => Extreme(kind, h, s.value, s.instant)
  }

  /** sqrt(sum / (count - 1)), where 0/0 is not a number. */
  function RootOfQuotient(sum: real, count: real): Value
  {
    if count == 1.0 then NotANumber else Root(sum / (count - 1.0))
  }

  /** The slots after the next reading; `count` includes it (lib/statistics.c:208-235). */
  function NextSlot(kind: Kind, s: Slot, count: real, r: Reading): Slot
    requires count != 0.0
  {
    match kind
    case AVG => if s.value.Fin? then s.(value := Fin(NextMean(s.value.r, r.x, count))) else s
    case STDEV =>
      var mean := NextMean(s.mean, r.x, count);
      var sum := s.sum + Product(r.x - mean, r.x - s.mean);
      Slot(RootOfQuotient(sum, count), s.instant, mean, sum)
    case _ => if BetterThan(kind, r.x, s.value) then s.(value := Fin(r.x), instant := r.time) else s
  }

  lemma DeviationSummarises(s: Slot, h: seq<Reading>, r: Reading)
    requires s.mean == Mean(h) && s.sum == Deviation(h, Mean(h))
    ensures Summarises(STDEV, NextSlot(STDEV, s, |h| as real + 1.0, r), h + [r])
  {
    var m, d, n := Mean(h + [r]), Deviation(h + [r], Mean(h + [r])), |h| as real + 1.0;
    MeanStep(h, r);
    WelfordStep(h, r);
    DeviationSlot(s, n, r, m, d);
    assert |h + [r]| as real == n;
  }

  lemma DeviationSlot(s: Slot, count: real, r: Reading, mean: real, sum: real)
    requires count != 0.0 && mean == NextMean(s.mean, r.x, count)
    requires sum == s.sum + Product(r.x - mean, r.x - s.mean)
    ensures NextSlot(STDEV, s, count, r) == Slot(RootOfQuotient(sum, count), s.instant, mean, sum)
  {
  }

  /** Each step keeps the slots a summary of all readings so far. */
  lemma NextSummarises(kind: Kind, s: Slot, h: seq<Reading>, r: Reading)
    requires Summarises(kind, s, h)
    ensures Summarises(kind, NextSlot(kind, s, |h| as real + 1.0, r), h + [r])
  {
    match kind
    case AVG => MeanStep(h, r);
    case STDEV => DeviationSummarises(s, h, r);
    case _ => ExtremeStep(kind, h, r, s.value, s.instant);
  }

  /** MIN keeps the least reading and when it first occurred. */
  lemma MinimumKept(s: Slot, h: seq<Reading>)
    requires Summarises(MIN, s, h) && h != []
    ensures s.value.Fin? && forall j :: 0 <= j < |h| ==> s.value.r <= h[j].x
    ensures exists k :: 0 <= k < |h| && h[k].x == s.value.r && h[k].time == s.instant
                        && forall j :: 0 <= j < k ==> s.value.r < h[j].x
  {
    var k :| 0 <= k < |h| && FirstExtremum(MIN, h, k) && s.value == Fin(h[k].x) && s.instant == h[k].time;
    forall j | 0 <= j < |h|
      ensures s.value.r <= h[j].x
    {
      assert !Better(MIN, h[j].x, h[k].x);
    }
    forall j | 0 <= j < k
      ensures s.value.r < h[j].x
    {
      assert Better(MIN, h[k].x, h[j].x);
    }
  }

  /** MAX keeps the greatest. */
  lemma MaximumKept(s: Slot, h: seq<Reading>)
    requires Summarises(MAX, s, h) && h != []
    ensures s.value.Fin? && forall j :: 0 <= j < |h| ==> h[j].x <= s.value.r
    ensures exists k :: 0 <= k < |h| && h[k].x == s.value.r && h[k].time == s.instant
                        && forall j :: 0 <= j < k ==> h[j].x < s.value.r
  {
    var k :| 0 <= k < |h| && FirstExtremum(MAX, h, k) && s.value == Fin(h[k].x) && s.instant == h[k].time;
    forall j | 0 <= j < |h|
      ensures h[j].x <= s.value.r
    {
      assert !Better(MAX, h[j].x, h[k].x);
    }
    forall j | 0 <= j < k
      ensures h[j].x < s.value.r
    {
      assert Better(MAX, h[k].x, h[j].x);
    }
  }

  /** After one sample there is no standard deviation yet. */
  lemma SingleSample(s: Slot, h: seq<Reading>)
    requires Summarises(STDEV, s, h) && |h| == 1
    ensures s.value.NotANumber? && s.mean == h[0].x && s.sum == 0.0
  {
    assert h[..0] == [] && h == [] + [h[0]];
    TotalAppend([], h[0], Number());
    TotalAppend([], h[0], SquareFrom(h[0].x));
    MeanTimesCount(h);
  }

  /** With two readings or more the square root is taken of the sample variance, which is not negative. */
  lemma VarianceNotNegative(s: Slot, h: seq<Reading>)
    requires Summarises(STDEV, s, h) && |h| >= 2
    ensures s.value.Root? && s.value.arg >= 0.0
    ensures s.value.arg * (|h| - 1) as real == Deviation(h, Mean(h))
  {
    var d, n := Deviation(h, Mean(h)), |h| as real - 1.0;
    assert n >= 1.0 && (|h| - 1) as real == n;
    DeviationNotNegative(h, Mean(h));
    QuotientNotNegative(d, n);
  }

  lemma QuotientNotNegative(d: real, n: real)
    requires d >= 0.0 && n >= 1.0
    ensures d / n >= 0.0 && d / n * n == d
  {
  }
}
