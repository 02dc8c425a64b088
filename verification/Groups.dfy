/** Groups of objects: a list kept in order of the objects' addresses, updated in place
    (lib/group.c:191-274, 346-586). */
module Groups {
  import opened GroupLists

  class Group {
    var list: seq<nat>

    ghost predicate Valid()
      reads this
    {
      Increasing(list)
    }

    constructor ()
      ensures Valid() && list == []
    {
      list := [];
    }
  }

  /** The position of the first object that is not below obj. */
  method Locate(list: seq<nat>, obj: nat) returns (k: nat)
    requires Increasing(list)
    ensures k <= |list| && Below(list[..k], obj) && (k < |list| ==> obj <= list[k])
    ensures obj in list <==> k < |list| && list[k] == obj
  {
    k := 0;
    while k < |list| && list[k] < obj
      invariant k <= |list| && Below(list[..k], obj)
    {
      assert list[..k + 1] == list[..k] + [list[k]];
      k := k + 1;
    }
    if k == |list| || list[k] != obj {
      Absent(list, k, obj);
    }
  }

  lemma InsertedAt(list: seq<nat>, k: nat, obj: nat)
    requires Increasing(list) && k <= |list| && Below(list[..k], obj) && (k < |list| ==> obj < list[k])
    ensures var r := list[..k] + [obj] + list[k..];
            Increasing(r) && Members(r) == Members(list) + {obj}
  {
    InsertedOrder(list, k, obj);
    var r := list[..k] + [obj] + list[k..];
    assert list == list[..k] + list[k..];
    assert forall x :: x in r <==> x in list || x == obj;
  }

  lemma InsertedOrder(list: seq<nat>, k: nat, obj: nat)
    requires Increasing(list) && k <= |list| && Below(list[..k], obj) && (k < |list| ==> obj < list[k])
    ensures Increasing(list[..k] + [obj] + list[k..])
  {
    var r := list[..k] + [obj] + list[k..];
    forall i, j | 0 <= i < j < |r|
      ensures r[i] < r[j]
    {
      assert i < k ==> r[i] == list[i] == list[..k][i];
      assert i > k ==> r[i] == list[i - 1];
      assert j < k ==> r[j] == list[j];
      assert j > k ==> r[j] == list[j - 1];
    }
  }

  lemma RemovedAt(list: seq<nat>, k: nat)
    requires Increasing(list) && k < |list|
    ensures var r := list[..k] + list[k + 1..];
            Increasing(r) && Members(r) == Members(list) - {list[k]}
  {
    RemovedOrder(list, k);
    var r := list[..k] + list[k + 1..];
    assert list == list[..k] + [list[k]] + list[k + 1..];
    assert forall x :: x in list <==> x in r || x == list[k];
    assert list[k] !in r;
  }

  lemma RemovedOrder(list: seq<nat>, k: nat)
    requires Increasing(list) && k < |list|
    ensures Increasing(list[..k] + list[k + 1..]) && list[k] !in list[..k] + list[k + 1..]
  {
    var r := list[..k] + list[k + 1..];
    forall i | 0 <= i < |r|
      ensures r[i] == list[if i < k then i else i + 1] && r[i] != list[k]
    {
    }
  }

  /** group_insert_obj; the null pointer is address 0. */
  method InsertObj(group: Group?, obj: nat) returns (ok: bool)
    requires group != null ==> group.Valid()
    modifies group
    ensures ok <==> group != null && obj != 0
    ensures group != null ==> group.Valid()
    ensures group != null ==> Members(group.list) == old(Members(group.list)) + if ok then {obj} else {}
    ensures group != null && (!ok || obj in old(group.list)) ==> group.list == old(group.list)
  {
    if group == null || obj == 0 {
      return false;
    }
    var k := Locate(group.list, obj);
    if k < |group.list| && group.list[k] == obj {
      return true;
    }
    InsertedAt(group.list, k, obj);
    group.list := group.list[..k] + [obj] + group.list[k..];
    ok := true;
  }

  /** group_remove_obj */
  method RemoveObj(group: Group?, obj: nat) returns (ok: bool)
    requires group != null ==> group.Valid()
    modifies group
    ensures ok <==> group != null && obj != 0
    ensures group != null ==> group.Valid()
    ensures group != null ==> Members(group.list) == old(Members(group.list)) - if ok then {obj} else {}
    ensures group != null && (!ok || obj !in old(group.list)) ==> group.list == old(group.list)
  {
    if group == null || obj == 0 {
      return false;
    }
    var k := Locate(group.list, obj);
    if k < |group.list| && group.list[k] == obj {
      RemovedAt(group.list, k);
      group.list := group.list[..k] + group.list[k + 1..];
    }
    ok := true;
  }

  /** The groups an operation is called with: a new group receives the result. */
  ghost predicate Ready(g1: Group?, g2: Group?, out: Group?)
    reads g1, g2, out
  {
    && (g1 != null ==> g1.Valid()) && (g2 != null ==> g2.Valid())
    && (out != null ==> out.list == [] && out != g1 && out != g2)
  }

  /** What every operation promises: with all groups present, the result represents the combined set. */
  twostate predicate Combined(op: Operation, g1: Group?, g2: Group?, out: Group?, ret: int)
    reads g1, g2, out
  {
    if g1 == null || g2 == null || out == null then ret == -1 && (out != null ==> out.list == old(out.list))
    else
      && ret == 0 && out.Valid()
      && Members(out.list) == Combine(op, old(Members(g1.list)), old(Members(g2.list)))
  }

  method GroupUnion(g1: Group?, g2: Group?, out: Group?) returns (ret: int)
    requires Ready(g1, g2, out)
    modifies out
    ensures Combined(Union, g1, g2, out, ret)
  {
    if g1 == null || g2 == null || out == null {
      return -1;
    }
    var a, b, i, j := g1.list, g2.list, 0, 0;
    WalkBegins(Union, a, b);
    while i < |a| && j < |b|
      invariant Walked(Union, a, b, i, j, out.list)
      decreases |a| - i + |b| - j
    {
      if a[i] < b[j] {
        PassFirst(Union, a, b, i, j, out.list);
        out.list, i := out.list + [a[i]], i + 1;
      } else if a[i] == b[j] {
        PassBoth(Union, a, b, i, j, out.list);
        out.list, i, j := out.list + [a[i]], i + 1, j + 1;
      } else {
        PassSecond(Union, a, b, i, j, out.list);
        out.list, j := out.list + [b[j]], j + 1;
      }
    }
    while i < |a|
      invariant Walked(Union, a, b, i, j, out.list) && (i == |a| || j == |b|)
    {
      PassFirst(Union, a, b, i, j, out.list);
      out.list, i := out.list + [a[i]], i + 1;
    }
    while j < |b|
      invariant Walked(Union, a, b, |a|, j, out.list)
    {
      PassSecond(Union, a, b, |a|, j, out.list);
      out.list, j := out.list + [b[j]], j + 1;
    }
    WalkEnds(Union, a, b, out.list);
    ret := 0;
  }

  method GroupIntersection(g1: Group?, g2: Group?, out: Group?) returns (ret: int)
    requires Ready(g1, g2, out)
    modifies out
    ensures Combined(Intersection, g1, g2, out, ret)
  {
    if g1 == null || g2 == null || out == null {
      return -1;
    }
    var a, b, i, j := g1.list, g2.list, 0, 0;
    WalkBegins(Intersection, a, b);
    while i < |a| && j < |b|
      invariant Walked(Intersection, a, b, i, j, out.list)
      decreases |a| - i + |b| - j
    {
      if a[i] < b[j] {
        PassFirst(Intersection, a, b, i, j, out.list);
        i := i + 1;
      } else if a[i] == b[j] {
        PassBoth(Intersection, a, b, i, j, out.list);
        out.list, i, j := out.list + [a[i]], i + 1, j + 1;
      } else {
        PassSecond(Intersection, a, b, i, j, out.list);
        j := j + 1;
      }
    }
    if i == |a| {
      SkipSecond(Intersection, a, b, j, out.list);
    } else {
      SkipFirst(Intersection, a, b, i, out.list);
    }
    WalkEnds(Intersection, a, b, out.list);
    ret := 0;
  }

  method GroupDifference(g1: Group?, g2: Group?, out: Group?) returns (ret: int)
    requires Ready(g1, g2, out)
    modifies out
    ensures Combined(Difference, g1, g2, out, ret)
  {
    if g1 == null || g2 == null || out == null {
      return -1;
    }
    var a, b, i, j := g1.list, g2.list, 0, 0;
    WalkBegins(Difference, a, b);
    while i < |a| && j < |b|
      invariant Walked(Difference, a, b, i, j, out.list)
      decreases |a| - i + |b| - j
    {
      if a[i] < b[j] {
        PassFirst(Difference, a, b, i, j, out.list);
        out.list, i := out.list + [a[i]], i + 1;
      } else if a[i] == b[j] {
        PassBoth(Difference, a, b, i, j, out.list);
        i, j := i + 1, j + 1;
      } else {
        PassSecond(Difference, a, b, i, j, out.list);
        j := j + 1;
      }
    }
    while i < |a|
      invariant Walked(Difference, a, b, i, j, out.list) && (i == |a| || j == |b|)
    {
      PassFirst(Difference, a, b, i, j, out.list);
      out.list, i := out.list + [a[i]], i + 1;
    }
    SkipSecond(Difference, a, b, j, out.list);
    WalkEnds(Difference, a, b, out.list);
    ret := 0;
  }

  method GroupSymDifference(g1: Group?, g2: Group?, out: Group?) returns (ret: int)
    requires Ready(g1, g2, out)
    modifies out
    ensures Combined(SymDifference, g1, g2, out, ret)
  {
    if g1 == null || g2 == null || out == null {
      return -1;
    }
    var a, b, i, j := g1.list, g2.list, 0, 0;
    WalkBegins(SymDifference, a, b);
    while i < |a| && j < |b|
      invariant Walked(SymDifference, a, b, i, j, out.list)
      decreases |a| - i + |b| - j
    {
      if a[i] < b[j] {
        PassFirst(SymDifference, a, b, i, j, out.list);
        out.list, i := out.list + [a[i]], i + 1;
      } else if a[i] == b[j] {
        PassBoth(SymDifference, a, b, i, j, out.list);
        i, j := i + 1, j + 1;
      } else {
        PassSecond(SymDifference, a, b, i, j, out.list);
        out.list, j := out.list + [b[j]], j + 1;
      }
    }
    while i < |a|
      invariant Walked(SymDifference, a, b, i, j, out.list) && (i == |a| || j == |b|)
    {
      PassFirst(SymDifference, a, b, i, j, out.list);
      out.list, i := out.list + [a[i]], i + 1;
    }
    while j < |b|
      invariant Walked(SymDifference, a, b, |a|, j, out.list)
    {
      PassSecond(SymDifference, a, b, |a|, j, out.list);
      out.list, j := out.list + [b[j]], j + 1;
    }
    WalkEnds(SymDifference, a, b, out.list);
    ret := 0;
  }

  /** Lists with the same members are the same list, so a law of sets is a law of groups: the symmetric
      difference is the union without the intersection. */
  lemma SymDifferenceOfParts(a: seq<nat>, b: seq<nat>, u: seq<nat>, m: seq<nat>, d: seq<nat>, s: seq<nat>)
    requires Increasing(d) && Increasing(s)
    requires Members(u) == Combine(Union, Members(a), Members(b))
    requires Members(m) == Combine(Intersection, Members(a), Members(b))
    requires Members(d) == Combine(Difference, Members(u), Members(m))
    requires Members(s) == Combine(SymDifference, Members(a), Members(b))
    ensures d == s
  {
    forall x
      ensures x in d <==> x in s
    {
      assert x in d <==> x in Members(d);
      assert x in s <==> x in Members(s);
    }
    IncreasingUnique(d, s);
  }
}
