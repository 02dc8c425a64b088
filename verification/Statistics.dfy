/** A running statistic over the objects of a group, sampled by its own thread (lib/statistics.c:129-247). */
module Statistics {
  import opened RunningStatistics

  /** What a read of the attribute gives: nothing, or one reading per object. */
  datatype Sampling = Failed | Sampled(readings: seq<Reading>)

  /** The samplings that gave readings. */
  function Successful(samplings: seq<Sampling>): seq<seq<Reading>>
  {
    if samplings == [] then []
    else
      var last := samplings[|samplings| - 1];
      Successful(samplings[..|samplings| - 1]) + if last.Sampled? then [last.readings] else []
  }

  predicate Complete(samplings: seq<Sampling>, n: nat)
  {
    forall k :: 0 <= k < |samplings| && samplings[k].Sampled? ==> |samplings[k].readings| == n
  }

  predicate Rows(history: seq<seq<Reading>>, n: nat) { forall k :: 0 <= k < |history| ==> |history[k]| == n }

  /** The readings of object i. */
  function ColumnOf(history: seq<seq<Reading>>, n: nat, i: nat): (c: seq<Reading>)
    requires i < n && Rows(history, n)
    ensures |c| == |history|
  {
    if history == [] then [] else ColumnOf(history[..|history| - 1], n, i) + [history[|history| - 1][i]]
  }

  lemma ColumnAppend(history: seq<seq<Reading>>, row: seq<Reading>, n: nat, i: nat)
    requires i < n && Rows(history, n) && |row| == n
    ensures Rows(history + [row], n)
    ensures ColumnOf(history + [row], n, i) == ColumnOf(history, n, i) + [row[i]]
  {
    assert (history + [row])[..|history|] == history;
  }

  class Statistic {
    const kind: Kind
    const n: nat
    const values: array<Value>
    const instants: array<nat>
    const rollMean: array<real>
    const rollSum: array<real>
    var avgcnt: real
    ghost var history: seq<seq<Reading>>

    ghost predicate Shape()
    {
      n == values.Length == instants.Length == rollMean.Length == rollSum.Length && rollMean != rollSum
    }

    ghost function SlotAt(i: nat): Slot
      reads values, instants, rollMean, rollSum
      requires Shape() && i < n
    {
      Slot(values[i], instants[i], rollMean[i], rollSum[i])
    }

    /** Every object's slots summarise all its readings so far. */
    ghost predicate Valid()
      reads this, values, instants, rollMean, rollSum
    {
      && Shape()
      && Rows(history, n)
      && avgcnt == |history| as real
      && (forall i: nat :: i < n ==> Summarises(kind, SlotAt(i), ColumnOf(history, n, i)))
    }

    /** Allocation and initialization (lib/statistics.c:150-187). */
    constructor (kind: Kind, n: nat)
      ensures Valid() && history == [] && this.kind == kind && this.n == n
      ensures fresh(values) && fresh(instants) && fresh(rollMean) && fresh(rollSum)
    {
      this.kind, this.n := kind, n;
      var initial := match kind case MIN => PosInfinity case MAX => NegInfinity case _ => Fin(0.0);
      values := new Value[n](_ => initial);
      instants := new nat[n](_ => 0);
      rollMean := new real[n](_ => 0.0);
      rollSum := new real[n](_ => 0.0);
      avgcnt, history := 0.0, [];
    }

    /** One pass of the loop over the objects (lib/statistics.c:208-235). */
    method UpdateSlot(i: nat, r: Reading)
      requires Shape() && i < n && avgcnt != 0.0 && (kind == AVG ==> values[i].Fin?)
      modifies values, instants, rollMean, rollSum
      ensures SlotAt(i) == NextSlot(kind, old(SlotAt(i)), avgcnt, r)
      ensures forall j: nat :: j < n && j != i ==> SlotAt(j) == old(SlotAt(j))
    {
      match kind {
        case AVG =>
          values[i] := Fin(values[i].r + (r.x - values[i].r) / avgcnt);
        case STDEV =>
          ghost var s := SlotAt(i);
          var prevMean := rollMean[i];
          rollMean[i] := rollMean[i] + (r.x - rollMean[i]) / avgcnt;
          rollSum[i] := rollSum[i] + (r.x - rollMean[i]) * (r.x - prevMean);
          values[i] := RootOfQuotient(rollSum[i], avgcnt);
          DeviationSlot(s, avgcnt, r, rollMean[i], rollSum[i]);
        case _ =>
          if BetterThan(kind, r.x, values[i]) {
            values[i] := Fin(r.x);
            instants[i] := r.time;
          }
      }
    }

    /** A successful sampling (lib/statistics.c:205-242). */
    method Update(readings: seq<Reading>)
      requires Valid() && |readings| == n
      modifies this, values, instants, rollMean, rollSum
      ensures Valid() && history == old(history) + [readings]
    {
      avgcnt := avgcnt + 1.0;
      ghost var h := history;
      var i := 0;
      while i < n
        invariant 0 <= i <= n && avgcnt == |h| as real + 1.0 && history == h
        invariant forall j: nat :: j < i ==> SlotAt(j) == NextSlot(kind, old(SlotAt(j)), avgcnt, readings[j])
        invariant forall j: nat :: i <= j < n ==> SlotAt(j) == old(SlotAt(j))
      {
        assert Summarises(kind, old(SlotAt(i)), ColumnOf(h, n, i));
        UpdateSlot(i, readings[i]);
        i := i + 1;
      }
      history := history + [readings];
      forall j: nat | j < n
        ensures Summarises(kind, SlotAt(j), ColumnOf(history, n, j))
      {
        ColumnAppend(h, readings, n, j);
        NextSummarises(kind, old(SlotAt(j)), ColumnOf(h, n, j), readings[j]);
      }
    }

    /** The sampling thread: failed readings are skipped and the next one awaited (lib/statistics.c:189-245). */
    method Sample(samplings: seq<Sampling>)
      requires Valid() && Complete(samplings, n)
      modifies this, values, instants, rollMean, rollSum
      ensures Valid() && history == old(history) + Successful(samplings)
    {
      var k := 0;
      while k < |samplings|
        invariant k <= |samplings| && Valid() && history == old(history) + Successful(samplings[..k])
      {
        assert samplings[..k + 1][..k] == samplings[..k];
        if samplings[k].Sampled? {
          Update(samplings[k].readings);
        }
        k := k + 1;
      }
      assert samplings[..k] == samplings;
    }
  }
}
