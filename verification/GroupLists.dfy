/** Strictly increasing lists as representations of sets, and how a parallel walk over two of them decides, address by
    address, what belongs to the combination (lib/group.c:346-586). */
module GroupLists {

  predicate Increasing(s: seq<nat>) { forall i, j :: 0 <= i < j < |s| ==> s[i] < s[j] }

  function Members(s: seq<nat>): set<nat> { set x | x in s }

  /** An increasing list is determined by its members. */
  lemma {:induction false} IncreasingUnique(s: seq<nat>, t: seq<nat>)
    requires Increasing(s) && Increasing(t) && (forall x :: x in s <==> x in t)
    ensures s == t
  {
    assert |t| > 0 ==> t[0] in t;
    if s != [] {
      assert s[0] in t;
      assert t[0] in s;
      assert s[0] == t[0];
      forall x
        ensures x in s[1..] <==> x in t[1..]
      {
        InRest(s, x);
        InRest(t, x);
      }
      IncreasingUnique(s[1..], t[1..]);
      assert s == [s[0]] + s[1..] && t == [t[0]] + t[1..];
    }
  }

  lemma InRest(s: seq<nat>, x: nat)
    requires Increasing(s) && s != []
    ensures x in s[1..] <==> x in s && x != s[0]
  {
  }

  datatype Operation = Union | Intersection | Difference | SymDifference

  /** Whether an object belongs to the combination of two sets, from its membership in each. */
  predicate Keep(op: Operation, in1: bool, in2: bool)
  {
    match op
    case Union => in1 || in2
    case Intersection => in1 && in2
    case Difference => in1 && !in2
    case SymDifference => in1 != in2
  }

  function Combine(op: Operation, a: set<nat>, b: set<nat>): set<nat>
  {
    match op
    case Union => a + b
    case Intersection => a * b
    case Difference => a - b
    case SymDifference => (a - b) + (b - a)
  }

  lemma CombineKeeps(op: Operation, a: set<nat>, b: set<nat>, x: nat)
    ensures x in Combine(op, a, b) <==> Keep(op, x in a, x in b)
  {
  }

  // ----- The walk -----

  predicate Below(s: seq<nat>, x: nat) { forall k :: 0 <= k < |s| ==> s[k] < x }

  /** Positions i and j have been reached, everything before them is below everything after them. */
  predicate Frontier(a: seq<nat>, b: seq<nat>, i: nat, j: nat)
    requires i <= |a| && j <= |b|
  {
    && (i < |a| ==> Below(b[..j], a[i]))
    && (j < |b| ==> Below(a[..i], b[j]))
  }

  /** The output holds, in order, what belongs to the combination among the objects passed. */
  ghost predicate Walked(op: Operation, a: seq<nat>, b: seq<nat>, i: nat, j: nat, r: seq<nat>)
  {
    && i <= |a| && j <= |b| && Frontier(a, b, i, j)
    && Increasing(r)
    && (forall x :: x in r <==> (x in a[..i] || x in b[..j]) && Keep(op, x in a, x in b))
  }

  function Append(r: seq<nat>, x: nat, keep: bool): seq<nat> { if keep then r + [x] else r }

  lemma AppendKeepsOrder(r: seq<nat>, x: nat, keep: bool)
    requires Increasing(r) && (forall y :: y in r ==> y < x)
    ensures Increasing(Append(r, x, keep))
    ensures forall y :: y in Append(r, x, keep) <==> y in r || (keep && y == x)
  {
    forall k | 0 <= k < |r|
      ensures r[k] < x
    {
      assert r[k] in r;
    }
  }

  /** An address above everything passed in a list and below what follows is not in it. */
  lemma Absent(b: seq<nat>, j: nat, x: nat)
    requires j <= |b| && Increasing(b) && Below(b[..j], x) && (j < |b| ==> x < b[j])
    ensures x !in b
  {
    forall k | 0 <= k < |b|
      ensures b[k] != x
    {
      if k < j {
        assert b[..j][k] == b[k];
      }
    }
  }

  lemma PassedOne(a: seq<nat>, i: nat)
    requires i < |a| && Increasing(a)
    ensures Below(a[..i], a[i]) && (i + 1 < |a| ==> Below(a[..i + 1], a[i + 1]))
    ensures forall x :: x in a[..i + 1] <==> x in a[..i] || x == a[i]
  {
    assert a[..i + 1] == a[..i] + [a[i]];
  }

  lemma WalkedBelow(op: Operation, a: seq<nat>, b: seq<nat>, i: nat, j: nat, r: seq<nat>, x: nat)
    requires Walked(op, a, b, i, j, r) && Below(a[..i], x) && Below(b[..j], x)
    ensures forall y :: y in r ==> y < x
  {
  }

  lemma BelowTrans(s: seq<nat>, x: nat, y: nat)
    requires Below(s, x) && x <= y
    ensures Below(s, y)
  {
  }

  /** The smaller object is in the first list only. */
  lemma PassFirst(op: Operation, a: seq<nat>, b: seq<nat>, i: nat, j: nat, r: seq<nat>)
    requires Increasing(a) && Increasing(b) && Walked(op, a, b, i, j, r)
    requires i < |a| && (j < |b| ==> a[i] < b[j])
    ensures Walked(op, a, b, i + 1, j, Append(r, a[i], Keep(op, true, false)))
  {
    var x := a[i];
    PassedOne(a, i);
    Absent(b, j, x);
    WalkedBelow(op, a, b, i, j, r, x);
    AppendKeepsOrder(r, x, Keep(op, true, false));
    assert x in a;
    if i + 1 < |a| {
      BelowTrans(b[..j], x, a[i + 1]);
    }
  }

  /** The smaller object is in the second list only. */
  lemma PassSecond(op: Operation, a: seq<nat>, b: seq<nat>, i: nat, j: nat, r: seq<nat>)
    requires Increasing(a) && Increasing(b) && Walked(op, a, b, i, j, r)
    requires j < |b| && (i < |a| ==> b[j] < a[i])
    ensures Walked(op, a, b, i, j + 1, Append(r, b[j], Keep(op, false, true)))
  {
    var x := b[j];
    PassedOne(b, j);
    Absent(a, i, x);
    WalkedBelow(op, a, b, i, j, r, x);
    AppendKeepsOrder(r, x, Keep(op, false, true));
    assert x in b;
    if j + 1 < |b| {
      BelowTrans(a[..i], x, b[j + 1]);
    }
  }

  /** Both lists hold the object. */
  lemma PassBoth(op: Operation, a: seq<nat>, b: seq<nat>, i: nat, j: nat, r: seq<nat>)
    requires Increasing(a) && Increasing(b) && Walked(op, a, b, i, j, r)
    requires i < |a| && j < |b| && a[i] == b[j]
    ensures Walked(op, a, b, i + 1, j + 1, Append(r, a[i], Keep(op, true, true)))
  {
    var x := a[i];
    PassedOne(a, i);
    PassedOne(b, j);
    WalkedBelow(op, a, b, i, j, r, x);
    AppendKeepsOrder(r, x, Keep(op, true, true));
    assert x in a && x in b;
  }

  /** What is left of the second list when the first is exhausted is in the second list only. */
  lemma SkipSecond(op: Operation, a: seq<nat>, b: seq<nat>, j: nat, r: seq<nat>)
    requires Increasing(a) && Increasing(b) && Walked(op, a, b, |a|, j, r) && !Keep(op, false, true)
    ensures Walked(op, a, b, |a|, |b|, r)
    decreases |b| - j
  {
    if j < |b| {
      PassSecond(op, a, b, |a|, j, r);
      SkipSecond(op, a, b, j + 1, r);
    }
  }

  lemma SkipFirst(op: Operation, a: seq<nat>, b: seq<nat>, i: nat, r: seq<nat>)
    requires Increasing(a) && Increasing(b) && Walked(op, a, b, i, |b|, r) && !Keep(op, true, false)
    ensures Walked(op, a, b, |a|, |b|, r)
    decreases |a| - i
  {
    if i < |a| {
      PassFirst(op, a, b, i, |b|, r);
      SkipFirst(op, a, b, i + 1, r);
    }
  }

  lemma WalkBegins(op: Operation, a: seq<nat>, b: seq<nat>)
    ensures Walked(op, a, b, 0, 0, [])
  {
  }

  /** At the end the output represents the combination of the two sets. */
  lemma WalkEnds(op: Operation, a: seq<nat>, b: seq<nat>, r: seq<nat>)
    requires Walked(op, a, b, |a|, |b|, r)
    ensures Increasing(r) && Members(r) == Combine(op, Members(a), Members(b))
  {
    assert a[..|a|] == a && b[..|b|] == b;
    forall x
      ensures x in Members(r) <==> x in Combine(op, Members(a), Members(b))
    {
      CombineKeeps(op, Members(a), Members(b), x);
    }
  }
}
