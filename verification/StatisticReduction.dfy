/** The values of a statistic over a group reduced to one number (lib/statistics.c:883-977).  A value may still be
    infinite, if nothing was sampled yet, or not a number; a stored square root is the number that it is. */
module StatisticReduction {
  import opened RunningStatistics

  datatype Stored = Stored(value: Value, time: nat)

  predicate Numeric(h: seq<Stored>) { forall i :: 0 <= i < |h| ==> !h[i].value.Root? }

  predicate AllFinite(h: seq<Stored>) { forall i :: 0 <= i < |h| ==> h[i].value.Fin? }

  function AsReading(s: Stored): Reading { Reading(if s.value.Fin? then s.value.r else 0.0, s.time) }

  function Readings(h: seq<Stored>): (r: seq<Reading>)
    ensures |r| == |h|
  {
    if h == [] then [] else Readings(h[..|h| - 1]) + [AsReading(h[|h| - 1])]
  }

  lemma ReadingsAppend(h: seq<Stored>, s: Stored)
    ensures Readings(h + [s]) == Readings(h) + [AsReading(s)]
    ensures AllFinite(h + [s]) <==> AllFinite(h) && s.value.Fin?
  {
    assert (h + [s])[..|h|] == h;
    assert AllFinite(h + [s]) ==> (h + [s])[|h|].value.Fin?;
    assert AllFinite(h + [s]) ==> forall i :: 0 <= i < |h| ==> (h + [s])[i] == h[i];
  }

  // ----- Arithmetic of doubles, up to rounding -----

  function Negated(a: Value): Value
  {
    match a
    case PosInfinity => NegInfinity
    case NegInfinity => PosInfinity
    case Fin(r) => Fin(0.0 - r)
    case _ => NotANumber
  }

  function Plus(a: Value, b: Value): Value
  {
    if a.Fin? && b.Fin? then Fin(a.r + b.r)
    else if a.Fin? then b
    else if b.Fin? || a == b then a
    else NotANumber
  }

  function Minus(a: Value, b: Value): Value { Plus(a, Negated(b)) }

  function Over(a: Value, n: real): Value
    requires n > 0.0
  {
    if a.Fin? then Fin(a.r / n) else a
  }

  predicate Positive(a: Value) { a.PosInfinity? || (a.Fin? && a.r > 0.0) }

  predicate Negative(a: Value) { a.NegInfinity? || (a.Fin? && a.r < 0.0) }

  function Times(a: Value, b: Value): Value
  {
    if a.Fin? && b.Fin? then Fin(Product(a.r, b.r))
    else if (Positive(a) && Positive(b)) || (Negative(a) && Negative(b)) then PosInfinity
    else if (Positive(a) && Negative(b)) || (Negative(a) && Positive(b)) then NegInfinity
    else NotANumber
  }

  /** sqrt(sum / (count - 1)) */
  function RootValue(sum: Value, count: real): Value
  {
    match sum
    case Fin(r) => RootOfQuotient(r, count)
    case PosInfinity => PosInfinity
    case _ => NotANumber
  }

  /** The next running mean of doubles, and what it adds to the sum of squares. */
  function MeanOf(mean: Value, v: Value, count: real): Value
    requires count > 0.0
  {
    Plus(mean, Over(Minus(v, mean), count))
  }

  lemma FiniteMean(mean: Value, v: Value, count: real)
    requires count > 0.0
    ensures MeanOf(mean, v, count).Fin? <==> mean.Fin? && v.Fin?
    ensures mean.Fin? && v.Fin? ==> MeanOf(mean, v, count) == Fin(NextMean(mean.r, v.r, count))
  {
  }

  lemma FiniteProduct(v: Value, a: Value, b: Value)
    ensures Times(Minus(v, a), Minus(v, b)).Fin? <==> v.Fin? && a.Fin? && b.Fin?
    ensures v.Fin? && a.Fin? && b.Fin? ==> Times(Minus(v, a), Minus(v, b)) == Fin(Product(v.r - a.r, v.r - b.r))
  {
  }

  // ----- Order of doubles -----

  predicate Below(a: Value, b: Value)
  {
    match a
    case NegInfinity => b.Fin? || b.PosInfinity?
    case Fin(r) => (b.Fin? && r < b.r) || b.PosInfinity?
    case _ => false
  }

  predicate Beats(op: Kind, a: Value, b: Value) { if op == MIN then Below(a, b) else Below(b, a) }

  /** What the result starts with: any number beats it, but for itself. */
  function Start(op: Kind): Value { match op case MIN => PosInfinity case MAX => NegInfinity case _ => Fin(0.0) }

  /** The first of the best values: none beats it, and no earlier one equals it. */
  predicate FirstBest(op: Kind, h: seq<Stored>, k: nat)
    requires k < |h|
  {
    && Beats(op, h[k].value, Start(op))
    && (forall j :: 0 <= j < |h| ==> !Beats(op, h[j].value, h[k].value))
    && (forall j :: 0 <= j < k ==> h[j].value != h[k].value)
  }

  predicate AnyBeats(op: Kind, h: seq<Stored>)
  {
    exists j :: 0 <= j < |h| && Beats(op, h[j].value, Start(op))
  }

  /** The extremum with its first index and its instant; if no value beats the infinity, that, and nothing is set. */
  predicate Located(op: Kind, h: seq<Stored>, index: nat, result: Value, instant: nat, index0: nat, instant0: nat)
  {
    if AnyBeats(op, h)
    then index < |h| && FirstBest(op, h, index) && result == h[index].value && instant == h[index].time
    else result == Start(op) && index == index0 && instant == instant0
  }

  lemma BeatsChain(op: Kind, a: Value, b: Value, c: Value)
    requires op == MIN || op == MAX
    ensures Beats(op, a, b) && Beats(op, b, c) ==> Beats(op, a, c)
    ensures !Beats(op, a, a)
    ensures Beats(op, a, b) && Beats(op, b, Start(op)) ==> Beats(op, a, Start(op))
    ensures !a.Root? && Beats(op, b, Start(op)) && Beats(op, a, Start(op)) ==>
              Beats(op, a, b) || Beats(op, b, a) || a == b
  {
  }

  lemma BestSurvives(op: Kind, h: seq<Stored>, s: Stored, k: nat)
    requires (op == MIN || op == MAX) && k < |h| && FirstBest(op, h, k)
    ensures Beats(op, s.value, h[k].value) ==> FirstBest(op, h + [s], |h|)
    ensures !Beats(op, s.value, h[k].value) ==> FirstBest(op, h + [s], k)
  {
    var h', b, v := h + [s], h[k].value, s.value;
    forall j | 0 <= j < |h|
      ensures Beats(op, v, b) ==> !Beats(op, h[j].value, v) && h[j].value != v
    {
      assert !Beats(op, h[j].value, b);
      BeatsChain(op, h[j].value, v, b);
      BeatsChain(op, v, b, b);
    }
    BeatsChain(op, v, b, b);
  }

  lemma LocatedStep(op: Kind, h: seq<Stored>, s: Stored, index: nat, v: Value, instant: nat, index0: nat, instant0: nat)
    requires op == MIN || op == MAX
    requires Located(op, h, index, v, instant, index0, instant0)
    ensures if Beats(op, s.value, v) then Located(op, h + [s], |h|, s.value, s.time, index0, instant0)
            else Located(op, h + [s], index, v, instant, index0, instant0)
  {
    var h' := h + [s];
    assert h'[|h|] == s;
    if AnyBeats(op, h) {
      var j :| 0 <= j < |h| && Beats(op, h[j].value, Start(op));
      assert h'[j] == h[j];
      BestSurvives(op, h, s, index);
    } else {
      assert forall j :: 0 <= j < |h| ==> h'[j] == h[j] && !Beats(op, h[j].value, Start(op));
      FirstToBeat(op, h, s);
    }
  }

  lemma FirstToBeat(op: Kind, h: seq<Stored>, s: Stored)
    requires (op == MIN || op == MAX) && !AnyBeats(op, h)
    ensures Beats(op, s.value, Start(op)) ==> FirstBest(op, h + [s], |h|)
    ensures AnyBeats(op, h + [s]) <==> Beats(op, s.value, Start(op))
  {
    var h' := h + [s];
    assert h'[|h|] == s;
    forall j | 0 <= j < |h|
      ensures h'[j] == h[j] && !Beats(op, h[j].value, Start(op))
      ensures Beats(op, s.value, Start(op)) ==> !Beats(op, h[j].value, s.value)
    {
      BeatsChain(op, h[j].value, s.value, Start(op));
    }
    BeatsChain(op, s.value, s.value, s.value);
  }

  /** For finite values the result is the least, or the greatest, of them and the index is its first. */
  lemma LocatedIsExtreme(op: Kind, h: seq<Stored>, index: nat, result: Value, instant: nat, index0: nat, instant0: nat)
    requires (op == MIN || op == MAX) && h != [] && AllFinite(h)
    requires Located(op, h, index, result, instant, index0, instant0)
    ensures index < |h| && result == h[index].value && instant == h[index].time && result.Fin?
    ensures forall j :: 0 <= j < |h| ==> if op == MIN then result.r <= h[j].value.r else h[j].value.r <= result.r
    ensures forall j :: 0 <= j < index ==> if op == MIN then result.r < h[j].value.r else h[j].value.r < result.r
  {
    assert Beats(op, h[0].value, Start(op));
    assert AnyBeats(op, h);
    forall j | 0 <= j < |h|
      ensures if op == MIN then result.r <= h[j].value.r else h[j].value.r <= result.r
      ensures j < index ==> if op == MIN then result.r < h[j].value.r else h[j].value.r < result.r
    {
      assert !Beats(op, h[j].value, h[index].value);
    }
  }

  // ----- The reduction -----

  /** The variables of the loop. */
  datatype Partial = Partial(index: nat, result: Value, instant: nat, avgcnt: real, mean: Value, sum: Value)

  /** A running mean, or no number once there was a value that is none. */
  predicate IsMean(v: Value, h: seq<Stored>)
  {
    if AllFinite(h) then v == Fin(Mean(Readings(h))) else !v.Fin?
  }

  predicate IsDeviation(v: Value, h: seq<Stored>)
  {
    if AllFinite(h) then v == Fin(Deviation(Readings(h), Mean(Readings(h)))) else !v.Fin?
  }

  /** What they hold after the values h: the standard deviation itself is only taken at the end. */
  predicate Reducing(op: Kind, a: Partial, h: seq<Stored>, index0: nat, instant0: nat)
  {
    match op
    case STDEV => Untouched(a, index0, instant0) && a.avgcnt == |h| as real && a.result == Fin(0.0)
                  && IsMean(a.mean, h) && IsDeviation(a.sum, h)
    case AVG => Untouched(a, index0, instant0) && a.avgcnt == |h| as real && IsMean(a.result, h) && a.sum == Fin(0.0)
    case _ => Located(op, h, a.index, a.result, a.instant, index0, instant0) && a.avgcnt == 0.0 && a.sum == Fin(0.0)
  }

  predicate Untouched(a: Partial, index0: nat, instant0: nat) { a.index == index0 && a.instant == instant0 }

  lemma MeanNext(v: Value, h: seq<Stored>, s: Stored)
    requires IsMean(v, h)
    ensures IsMean(MeanOf(v, s.value, |h| as real + 1.0), h + [s])
  {
    ReadingsAppend(h, s);
    FiniteMean(v, s.value, |h| as real + 1.0);
    MeanStep(Readings(h), AsReading(s));
  }

  lemma DeviationNext(mean: Value, mean': Value, sum: Value, h: seq<Stored>, s: Stored)
    requires IsMean(mean, h) && IsMean(mean', h + [s]) && IsDeviation(sum, h)
    ensures IsDeviation(Plus(sum, Times(Minus(s.value, mean'), Minus(s.value, mean))), h + [s])
  {
    ReadingsAppend(h, s);
    FiniteProduct(s.value, mean', mean);
    WelfordStep(Readings(h), AsReading(s));
  }

  /** One value is taken in (lib/statistics.c:934-962). */
  method ReduceNext(op: Kind, a: Partial, ghost h: seq<Stored>, i: nat, s: Stored, ghost index0: nat,
                    ghost instant0: nat)
    returns (b: Partial)
    requires Reducing(op, a, h, index0, instant0) && i == |h|
    ensures Reducing(op, b, h + [s], index0, instant0)
  {
    match op {
      case AVG =>
        var avgcnt := i as real + 1.0;
        MeanNext(a.result, h, s);
        b := a.(avgcnt := avgcnt, result := MeanOf(a.result, s.value, avgcnt));
      case STDEV =>
        var avgcnt := i as real + 1.0;
        var mean := MeanOf(a.mean, s.value, avgcnt);
        MeanNext(a.mean, h, s);
        DeviationNext(a.mean, mean, a.sum, h, s);
        b := a.(avgcnt := avgcnt, mean := mean,
                sum := Plus(a.sum, Times(Minus(s.value, mean), Minus(s.value, a.mean))));
      case _ =>
        LocatedStep(op, h, s, a.index, a.result, a.instant, index0, instant0);
        b := if Beats(op, s.value, a.result) then a.(result := s.value, index := i, instant := s.time) else a;
    }
  }

  /** The values of all objects reduced to one (lib/statistics.c:909-968).  The final square root hangs on the
      statistic, not on the operation: where one is STDEV and the other is not, the result says nothing. */
  method Reduce(stat: Kind, op: Kind, h: seq<Stored>, index0: nat, instant0: nat)
    returns (index: nat, result: Value, instant: nat)
    requires Numeric(h)
    ensures op in {MIN, MAX} && stat != STDEV ==> Located(op, h, index, result, instant, index0, instant0)
    ensures op == AVG && stat != STDEV ==> IsMean(result, h)
    ensures op == STDEV && stat == STDEV ==>
              if AllFinite(h) then result == StandardDeviation(Readings(h)) else result in {PosInfinity, NotANumber}
    ensures op == STDEV && stat != STDEV ==> result == Fin(0.0)
    ensures op != STDEV && stat == STDEV ==> result == RootOfQuotient(0.0, if op == AVG then |h| as real else 0.0)
    ensures op in {AVG, STDEV} ==> index == index0 && instant == instant0
  {
    var a := Partial(index0, Start(op), instant0, 0.0, Fin(0.0), Fin(0.0));
    var i := 0;
    while i < |h|
      invariant i <= |h| && Reducing(op, a, h[..i], index0, instant0)
    {
      assert h[..i + 1] == h[..i] + [h[i]];
      a := ReduceNext(op, a, h[..i], i, h[i], index0, instant0);
      i := i + 1;
    }
    assert h[..i] == h;
    index, result, instant := a.index, a.result, a.instant;
    if stat == STDEV {
      result := RootValue(a.sum, a.avgcnt);
    }
  }
}
