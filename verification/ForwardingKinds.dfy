/** Which objects of a hierarchy are asked to set an attribute, told by their kinds alone: the attributes read along the
    six set functions (lib/object.c:753-779, 819-850, 878-903, 934-960, 997-1027, 1070-1110). */
module ForwardingKinds {
  import opened Forwarding

  /** The kinds of object whose devices can set the attribute. */
  function SettableOn(attr: Attr): set<Kind>
  {
    match attr
    case POWER_LIMIT_MAX => {SOCKET, MEM}
    case CSTATE_LIMIT => {HT}
    case FREQ_REQ => {HT}
    case FREQ_LIMIT_MIN => {HT}
    case FREQ_LIMIT_MAX => {HT}
    case GOV => {HT}
    case _ => {}
  }

  /** The kinds of object on which the attribute can only be read. */
  function ReadableOn(attr: Attr): set<Kind>
  {
    match attr
    case OS_ID => {NODE, SOCKET, CORE, POWER_PLANE, MEM, HT}
    case POWER => {NODE, SOCKET, POWER_PLANE, MEM}
    case ENERGY => {NODE, SOCKET, POWER_PLANE, MEM}
    case THROTTLED_TIME => {SOCKET, MEM}
    case TEMP => {SOCKET, CORE}
    case FREQ => {HT}
    case _ => {}
  }

  predicate ValidPos(o: Obj, p: Pos)
    decreases |p|
  {
    p != [] ==> p[0] < |o.children| && ValidPos(o.children[p[0]], p[1..])
  }

  /** The kinds of the objects on the way from o to its descendant at p, both included. */
  function KindsTo(o: Obj, p: Pos): (ks: seq<Kind>)
    requires ValidPos(o, p)
    ensures |ks| == |p| + 1
    decreases |p|
  {
    if p == [] then [o.kind] else [o.kind] + KindsTo(o.children[p[0]], p[1..])
  }

  /** The descendant at p is of one of the kinds, and nothing on the way to it is, or is of an unknown kind. */
  predicate Outermost(o: Obj, kinds: set<Kind>, p: Pos)
  {
    && ValidPos(o, p)
    && KindsTo(o, p)[|p|] in kinds
    && forall i :: 0 <= i < |p| ==> KindsTo(o, p)[i] !in kinds && KindsTo(o, p)[i] != OTHER_KIND
  }

  lemma OutermostBelow(o: Obj, kinds: set<Kind>, p: Pos)
    requires p != []
    ensures Outermost(o, kinds, p) <==>
            && o.kind !in kinds && o.kind != OTHER_KIND
            && p[0] < |o.children| && Outermost(o.children[p[0]], kinds, p[1..])
  {
    if p[0] < |o.children| && ValidPos(o.children[p[0]], p[1..]) {
      var ks, below := KindsTo(o, p), KindsTo(o.children[p[0]], p[1..]);
      assert ks == [o.kind] + below && ks[|p|] == below[|p| - 1];
      assert forall i :: 0 <= i < |p| - 1 ==> ks[i + 1] == below[i];
      assert ks[0] == o.kind;
      if Outermost(o, kinds, p) {
        forall i | 0 <= i < |p| - 1
          ensures below[i] !in kinds && below[i] != OTHER_KIND
        {
          assert ks[i + 1] !in kinds && ks[i + 1] != OTHER_KIND;
        }
      }
    }
  }

  lemma {:induction false} NearestIsOutermost(o: Obj, attr: Attr, p: Pos)
    ensures Nearest(o, attr, p) <==> Outermost(o, SettableOn(attr), p)
    decreases |p|
  {
    if p != [] {
      if SettableOn(attr) == {} {
        NoneNearest(o, attr, p);
      } else {
        OutermostBelow(o, SettableOn(attr), p);
        if p[0] < |o.children| {
          NearestIsOutermost(o.children[p[0]], attr, p[1..]);
        }
      }
    }
  }

  lemma {:induction false} NoneNearest(o: Obj, attr: Attr, p: Pos)
    requires SettableOn(attr) == {}
    ensures !Nearest(o, attr, p)
    decreases |p|
  {
    if p != [] && p[0] < |o.children| {
      NoneNearest(o.children[p[0]], attr, p[1..]);
    }
  }

  /** Setting an attribute on any tree calls the device of every outermost object that can set it, each once: sockets
      and memories for a power limit, hardware threads for C-states, frequencies and governors, and nothing for any
      other attribute. */
  lemma CalledByKind(o: Obj, attr: Attr, at: Pos)
    ensures NoDuplicates(Called(o, attr, at))
    ensures forall p :: p in Called(o, attr, at) <==> Under(p, at) && Outermost(o, SettableOn(attr), p[|at|..])
  {
    CalledExactly(o, attr, at);
    forall p
      ensures p in Called(o, attr, at) <==> Under(p, at) && Outermost(o, SettableOn(attr), p[|at|..])
    {
      if Under(p, at) {
        NearestIsOutermost(o, attr, p[|at|..]);
      }
    }
  }

  /** In the order of a walk over the tree: at the first level where two positions part, the lower child is first. */
  predicate Precedes(p: Pos, q: Pos) { exists k :: 0 <= k < |p| && k < |q| && p[..k] == q[..k] && p[k] < q[k] }

  predicate InOrder(s: seq<Pos>) { forall i, j :: 0 <= i < j < |s| ==> Precedes(s[i], s[j]) }

  lemma ConcatInOrder(a: seq<Pos>, b: seq<Pos>)
    requires InOrder(a) && InOrder(b) && forall p, q :: p in a && q in b ==> Precedes(p, q)
    ensures InOrder(a + b)
  {
    forall i, j | 0 <= i < j < |a + b|
      ensures Precedes((a + b)[i], (a + b)[j])
    {
      if i < |a| <= j {
        assert a[i] in a && b[j - |a|] in b;
      }
    }
  }

  /** The devices are called in that order. */
  lemma {:induction false} CalledInOrder(o: Obj, attr: Attr, at: Pos)
    ensures InOrder(Called(o, attr, at))
    decreases o, 1, 0
  {
    if DispatchOf(o.kind, attr) == Forward {
      CalledFromInOrder(o, attr, at, 0);
    }
  }

  lemma {:induction false} CalledFromInOrder(o: Obj, attr: Attr, at: Pos, i: nat)
    requires i <= |o.children| && DispatchOf(o.kind, attr) == Forward
    ensures InOrder(CalledFrom(o, attr, at, i))
    decreases o, 0, |o.children| - i
  {
    if i < |o.children| {
      var first, rest := Called(o.children[i], attr, at + [i]), CalledFrom(o, attr, at, i + 1);
      CalledInOrder(o.children[i], attr, at + [i]);
      CalledFromInOrder(o, attr, at, i + 1);
      CalledExactly(o.children[i], attr, at + [i]);
      CalledFromExactly(o, attr, at, i + 1);
      forall p, q | p in first && q in rest
        ensures Precedes(p, q)
      {
        UnderChild(p, at, i);
        assert p[..|at|] == q[..|at|] && p[|at|] < q[|at|];
      }
      ConcatInOrder(first, rest);
    }
  }

  // ----- Attributes that can only be read -----

  ghost predicate Reaches(o: Obj, kinds: set<Kind>) { exists p :: Outermost(o, kinds, p) }

  lemma ReachesSelf(o: Obj, kinds: set<Kind>)
    requires o.kind in kinds
    ensures Reaches(o, kinds)
  {
    assert Outermost(o, kinds, []);
  }

  lemma ReachesChild(o: Obj, kinds: set<Kind>)
    requires o.kind !in kinds && o.kind != OTHER_KIND
    ensures Reaches(o, kinds) <==> exists i :: 0 <= i < |o.children| && Reaches(o.children[i], kinds)
  {
    if Reaches(o, kinds) {
      var p :| Outermost(o, kinds, p);
      assert p != [];
      OutermostBelow(o, kinds, p);
      assert Reaches(o.children[p[0]], kinds);
    }
    forall i | 0 <= i < |o.children| && Reaches(o.children[i], kinds)
      ensures Reaches(o, kinds)
    {
      var p :| Outermost(o.children[i], kinds, p);
      assert ([i] + p)[1..] == p;
      OutermostBelow(o, kinds, [i] + p);
    }
  }

  lemma ReachesNothing(o: Obj, kinds: set<Kind>)
    requires o.kind == OTHER_KIND && OTHER_KIND !in kinds
    ensures !Reaches(o, kinds)
  {
    forall p
      ensures !Outermost(o, kinds, p)
    {
      if p != [] {
        OutermostBelow(o, kinds, p);
      }
    }
  }

  predicate ReadOnlyOrNone(r: int, b: bool) { r == if b then READ_ONLY else NOT_IMPLEMENTED }

  /** What an attribute that no object can set returns: that it is read-only, if there is an object on the way on which
      it can be read, and else that it is not implemented. */
  lemma {:induction false} ReadOnlyByKind(o: Obj, attr: Attr, status: Pos -> int, at: Pos)
    requires SettableOn(attr) == {}
    ensures ReadOnlyOrNone(Result(o, attr, status, at), Reaches(o, ReadableOn(attr)))
    decreases o, 1, 0
  {
    var kinds := ReadableOn(attr);
    if o.kind in kinds {
      ReachesSelf(o, kinds);
      assert DispatchOf(o.kind, attr) == ReadOnly;
    } else if o.kind == OTHER_KIND {
      ReachesNothing(o, kinds);
    } else {
      assert DispatchOf(o.kind, attr) == Forward;
      ReachesChild(o, kinds);
      ChildrenByKind(o, attr, status, at, 0);
      CombineReadOnly(ResultsFrom(o, attr, status, at, 0));
    }
  }

  predicate OnlyReadOnly(s: seq<int>) { forall x :: x in s ==> x == READ_ONLY || x == NOT_IMPLEMENTED }

  lemma CombineReadOnly(s: seq<int>)
    requires OnlyReadOnly(s)
    ensures ReadOnlyOrNone(Combined(s), READ_ONLY in s)
  {
    LeadConcat(s, []);
    if READ_ONLY in s {
      assert Lead(s) == READ_ONLY;
    }
  }

  lemma {:induction false} ChildrenByKind(o: Obj, attr: Attr, status: Pos -> int, at: Pos, i: nat)
    requires SettableOn(attr) == {} && i <= |o.children|
    ensures var s := ResultsFrom(o, attr, status, at, i);
            OnlyReadOnly(s) &&
            (READ_ONLY in s <==> exists k :: i <= k < |o.children| && Reaches(o.children[k], ReadableOn(attr)))
    decreases o, 0, |o.children| - i
  {
    if i < |o.children| {
      ReadOnlyByKind(o.children[i], attr, status, at + [i]);
      ChildrenByKind(o, attr, status, at, i + 1);
    }
  }
}
