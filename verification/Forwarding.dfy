/** Setting an attribute on an object of the hierarchy: objects that do not handle the attribute themselves
    pass the request on to their children and combine what the children return (lib/object.c:633-1110). */
module Forwarding {

  datatype Kind = NODE | SOCKET | CORE | POWER_PLANE | MEM | HT | OTHER_KIND

  datatype Attr =
    | OS_ID | POWER | ENERGY | THROTTLED_TIME | TEMP | POWER_LIMIT_MAX
    | CSTATE_LIMIT | FREQ | FREQ_REQ | FREQ_LIMIT_MIN | FREQ_LIMIT_MAX | GOV | OTHER_ATTR

  datatype Obj = Obj(kind: Kind, children: seq<Obj>)

  const SUCCESS := 0
  const FAILURE := -1
  const NOT_IMPLEMENTED := -2
  const READ_ONLY := -8

  // ----- The six set functions' dispatch (lib/object.c:753-779, 819-850, 878-903, 934-960, 997-1027, 1070-1110) -----

  datatype Dispatch = ReadOnly | Native | Forward | Unsupported

  predicate IsReadOnly(kind: Kind, attr: Attr)
  {
    match kind
    case NODE => attr in {OS_ID, POWER, ENERGY}
    case SOCKET => attr in {OS_ID, POWER, ENERGY, THROTTLED_TIME, TEMP}
    case CORE => attr in {OS_ID, TEMP}
    case POWER_PLANE => attr in {OS_ID, POWER, ENERGY}
    case MEM => attr in {OS_ID, POWER, ENERGY, THROTTLED_TIME}
    case HT => attr in {OS_ID, FREQ}
    case OTHER_KIND => false
  }

  predicate IsNative(kind: Kind, attr: Attr)
  {
    match kind
    case SOCKET => attr == POWER_LIMIT_MAX
    case MEM => attr == POWER_LIMIT_MAX
    case HT => attr in {CSTATE_LIMIT, FREQ_REQ, FREQ_LIMIT_MIN, FREQ_LIMIT_MAX, GOV}
    case _ => false
  }

  function DispatchOf(kind: Kind, attr: Attr): Dispatch
  {
    if kind == OTHER_KIND then Unsupported
    else if IsReadOnly(kind, attr) then ReadOnly
    else if IsNative(kind, attr) then Native
    else Forward
  }

  // ----- Which objects are asked -----

  /** The position of a descendant: the child index at every level. */
  type Pos = seq<nat>

  /** The descendant at p handles the attribute, and every object on the way to it passes the request on. */
  predicate Nearest(o: Obj, attr: Attr, p: Pos)
    decreases |p|
  {
    if p == [] then DispatchOf(o.kind, attr) == Native
    else
      && DispatchOf(o.kind, attr) == Forward
      && p[0] < |o.children|
      && Nearest(o.children[p[0]], attr, p[1..])
  }

  /** The handlers called below position `at`, in order. */
  function Called(o: Obj, attr: Attr, at: Pos): seq<Pos>
    decreases o, 1, 0
  {
    match DispatchOf(o.kind, attr)
    case Native => [at]
    case Forward => CalledFrom(o, attr, at, 0)
    case _ => []
  }

  function CalledFrom(o: Obj, attr: Attr, at: Pos, i: nat): seq<Pos>
    requires i <= |o.children|
    decreases o, 0, |o.children| - i
  {
    if i == |o.children| then []
    else Called(o.children[i], attr, at + [i]) + CalledFrom(o, attr, at, i + 1)
  }

  predicate NoDuplicates<T(==)>(s: seq<T>) { forall i, j :: 0 <= i < j < |s| ==> s[i] != s[j] }

  lemma DisjointConcat<T>(a: seq<T>, b: seq<T>)
    requires NoDuplicates(a) && NoDuplicates(b) && (forall x :: x in a ==> x !in b)
    ensures NoDuplicates(a + b)
  {
    forall i, j | 0 <= i < j < |a + b|
      ensures (a + b)[i] != (a + b)[j]
    {
      if i < |a| <= j {
        assert a[i] in a && b[j - |a|] in b;
      }
    }
  }

  /** Position p lies at or below `at`. */
  predicate Under(p: Pos, at: Pos) { at <= p }

  lemma UnderChild(p: Pos, at: Pos, i: nat)
    ensures Under(p, at + [i]) <==> Under(p, at) && |p| > |at| && p[|at|] == i
    ensures Under(p, at + [i]) ==> p[|at + [i]|..] == p[|at|..][1..]
  {
    if Under(p, at) && |p| > |at| && p[|at|] == i {
      assert at + [i] == p[..|at| + 1];
    }
  }

  /** Every nearest handler is called exactly once, whatever the others return, and nothing else is called. */
  lemma {:induction false} CalledExactly(o: Obj, attr: Attr, at: Pos)
    ensures NoDuplicates(Called(o, attr, at))
    ensures forall p :: p in Called(o, attr, at) <==> Under(p, at) && Nearest(o, attr, p[|at|..])
    decreases o, 1, 0
  {
    match DispatchOf(o.kind, attr) {
      case Native =>
        forall p
          ensures p in Called(o, attr, at) <==> Under(p, at) && Nearest(o, attr, p[|at|..])
        {
          if Under(p, at) && p[|at|..] == [] {
            assert p == at;
          }
        }
      case Forward => CalledFromExactly(o, attr, at, 0);
      case _ =>
    }
  }

  lemma {:induction false} CalledFromExactly(o: Obj, attr: Attr, at: Pos, i: nat)
    requires i <= |o.children| && DispatchOf(o.kind, attr) == Forward
    ensures NoDuplicates(CalledFrom(o, attr, at, i))
    ensures forall p :: p in CalledFrom(o, attr, at, i) <==>
              Under(p, at) && |p| > |at| && p[|at|] >= i && Nearest(o, attr, p[|at|..])
    decreases o, 0, |o.children| - i
  {
    if i < |o.children| {
      var first, rest := Called(o.children[i], attr, at + [i]), CalledFrom(o, attr, at, i + 1);
      CalledExactly(o.children[i], attr, at + [i]);
      CalledFromExactly(o, attr, at, i + 1);
      forall p
        ensures p in first <==> Under(p, at) && |p| > |at| && p[|at|] == i && Nearest(o, attr, p[|at|..])
      {
        UnderChild(p, at, i);
      }
      DisjointConcat(first, rest);
    }
  }

  // ----- What the caller is told -----

  predicate IsError(x: int) { x < 0 && x != NOT_IMPLEMENTED }

  predicate IsWarning(x: int) { x > 0 }

  /** The first status that is neither success nor not-implemented; success if there is none. */
  function Lead(s: seq<int>): int
  {
    if s == [] then SUCCESS
    else if s[0] == NOT_IMPLEMENTED || s[0] == SUCCESS then Lead(s[1..])
    else s[0]
  }

  predicate NoneImplemented(s: seq<int>) { forall x :: x in s ==> x == NOT_IMPLEMENTED }

  predicate HasError(s: seq<int>) { exists x :: x in s && IsError(x) }

  predicate ErrorsAre(s: seq<int>, e: int) { forall x :: x in s && IsError(x) ==> x == e }

  /** What the loop over the children computes from their statuses (lib/object.c:643-714). */
  function Combined(s: seq<int>): int
  {
    if NoneImplemented(s) then NOT_IMPLEMENTED
    else if ErrorsAre(s, Lead(s)) then Lead(s)
    else FAILURE
  }

  /** What its comment promises (lib/object.c:686-699): warnings are ignored, an error that is the only kind of
      error survives, different errors become a failure.  Only the set of statuses matters. */
  ghost function Promised(s: set<int>): int
  {
    if forall x :: x in s ==> x == NOT_IMPLEMENTED then NOT_IMPLEMENTED
    else if forall x :: x in s ==> !IsError(x) then SUCCESS
    else
      var e :| e in s && IsError(e);
      if forall x :: x in s && IsError(x) ==> x == e then e else FAILURE
  }

  ghost function Elements(s: seq<int>): set<int> { set x | x in s }

  /** The status of the whole operation on o; `status` is what each native handler returns. */
  function Result(o: Obj, attr: Attr, status: Pos -> int, at: Pos): int
    decreases o, 1, 0
  {
    match DispatchOf(o.kind, attr)
    case ReadOnly => READ_ONLY
    case Native => status(at)
    case Forward => Combined(ResultsFrom(o, attr, status, at, 0))
    case Unsupported => NOT_IMPLEMENTED
  }

  function ResultsFrom(o: Obj, attr: Attr, status: Pos -> int, at: Pos, i: nat): (r: seq<int>)
    requires i <= |o.children|
    decreases o, 0, |o.children| - i
  {
    if i == |o.children| then []
    else [Result(o.children[i], attr, status, at + [i])] + ResultsFrom(o, attr, status, at, i + 1)
  }

  /** The statuses of all handlers reached, in order. */
  function Statuses(o: Obj, attr: Attr, status: Pos -> int, at: Pos): seq<int>
    decreases o, 1, 0
  {
    match DispatchOf(o.kind, attr)
    case ReadOnly => [READ_ONLY]
    case Native => [status(at)]
    case Forward => StatusesFrom(o, attr, status, at, 0)
    case Unsupported => []
  }

  function StatusesFrom(o: Obj, attr: Attr, status: Pos -> int, at: Pos, i: nat): seq<int>
    requires i <= |o.children|
    decreases o, 0, |o.children| - i
  {
    if i == |o.children| then []
    else Statuses(o.children[i], attr, status, at + [i]) + StatusesFrom(o, attr, status, at, i + 1)
  }

  // ----- The operations -----

  /** The devices behind the handlers, with the calls made so far. */
  class Devices {
    var calls: seq<Pos>
    const status: Pos -> int

    constructor (status: Pos -> int)
      ensures calls == [] && this.status == status
    {
      calls, this.status := [], status;
    }

    method CallHandler(at: Pos) returns (r: int)
      modifies this
      ensures r == status(at) && calls == old(calls) + [at]
    {
      calls := calls + [at];
      r := status(at);
    }

    /** The set functions of the six kinds. */
    method SetValue(o: Obj, attr: Attr, at: Pos) returns (r: int)
      modifies this
      ensures r == Result(o, attr, status, at)
      ensures calls == old(calls) + Called(o, attr, at)
      decreases o, 1
    {
      match DispatchOf(o.kind, attr) {
        case ReadOnly => r := READ_ONLY;
        case Native => r := CallHandler(at);
        case Forward => r := ForwardSetValue(o, attr, at);
        case Unsupported => r := NOT_IMPLEMENTED;
      }
    }

    /** forward_attr_set_value (lib/object.c:633-719) */
    method ForwardSetValue(o: Obj, attr: Attr, at: Pos) returns (r: int)
      modifies this
      ensures r == Combined(ResultsFrom(o, attr, status, at, 0))
      ensures calls == old(calls) + CalledFrom(o, attr, at, 0)
      decreases o, 0
    {
      r := SUCCESS;
      var implemented := 0;
      ghost var seen: seq<int> := [];
      var i := 0;
      while i < |o.children|
        invariant i <= |o.children|
        invariant ResultsSoFar(o, attr, status, at, i, seen)
        invariant CallsSoFar(o, attr, at, i, old(calls), calls)
        invariant implemented == 0 <==> NoneImplemented(seen)
        invariant implemented >= 0 && r == Running(seen)
      {
        ghost var before := calls;
        var s := SetValue(o.children[i], attr, at + [i]);
        NextChild(o, attr, status, at, i, seen, old(calls), before);
        RunningStep(seen, s);
        seen := seen + [s];
        i := i + 1;
        if s == NOT_IMPLEMENTED {
          continue;
        }
        implemented := implemented + 1;
        if r == SUCCESS {
          r := s;
        }
        if s != r && s < SUCCESS {
          r := FAILURE;
        }
      }
      assert seen == ResultsFrom(o, attr, status, at, 0);
      if implemented == 0 {
        r := NOT_IMPLEMENTED;
      }
    }
  }

  ghost predicate ResultsSoFar(o: Obj, attr: Attr, status: Pos -> int, at: Pos, i: nat, seen: seq<int>)
    requires i <= |o.children|
  {
    seen + ResultsFrom(o, attr, status, at, i) == ResultsFrom(o, attr, status, at, 0)
  }

  ghost predicate CallsSoFar(o: Obj, attr: Attr, at: Pos, i: nat, initial: seq<Pos>, calls: seq<Pos>)
    requires i <= |o.children|
  {
    calls + CalledFrom(o, attr, at, i) == initial + CalledFrom(o, attr, at, 0)
  }

  lemma NextChild(o: Obj, attr: Attr, status: Pos -> int, at: Pos, i: nat, seen: seq<int>, initial: seq<Pos>,
                  calls: seq<Pos>)
    requires i < |o.children|
    requires ResultsSoFar(o, attr, status, at, i, seen) && CallsSoFar(o, attr, at, i, initial, calls)
    ensures ResultsSoFar(o, attr, status, at, i + 1, seen + [Result(o.children[i], attr, status, at + [i])])
    ensures CallsSoFar(o, attr, at, i + 1, initial, calls + Called(o.children[i], attr, at + [i]))
  {
    var r, c := Result(o.children[i], attr, status, at + [i]), Called(o.children[i], attr, at + [i]);
    var rest := ResultsFrom(o, attr, status, at, i + 1);
    assert seen + ([r] + rest) == seen + [r] + rest;
    assert calls + (c + CalledFrom(o, attr, at, i + 1)) == calls + c + CalledFrom(o, attr, at, i + 1);
  }

  /** The loop's retval after some of the children. */
  function Running(s: seq<int>): int { if ErrorsAre(s, Lead(s)) then Lead(s) else FAILURE }

  lemma {:induction false} LeadConcat(a: seq<int>, b: seq<int>)
    ensures Lead(a + b) == if Lead(a) != SUCCESS then Lead(a) else Lead(b)
    ensures Lead(a) == SUCCESS <==> forall x :: x in a ==> x == NOT_IMPLEMENTED || x == SUCCESS
    ensures Lead(a) != NOT_IMPLEMENTED && (Lead(a) != SUCCESS ==> Lead(a) in a)
  {
    if a == [] {
      assert a + b == b;
    } else {
      assert (a + b)[1..] == a[1..] + b;
      LeadConcat(a[1..], b);
      assert a[0] in a && forall x :: x in a <==> x == a[0] || x in a[1..];
    }
  }

  lemma RunningStep(seen: seq<int>, s: int)
    ensures NoneImplemented(seen + [s]) <==> NoneImplemented(seen) && s == NOT_IMPLEMENTED
    ensures Running(seen + [s]) ==
              if s == NOT_IMPLEMENTED then Running(seen)
              else
                var r := if Running(seen) == SUCCESS then s else Running(seen);
                if s != r && s < SUCCESS then FAILURE else r
  {
    LeadConcat(seen, [s]);
    LeadConcat([s], []);
    assert s in seen + [s];
    assert forall x :: x in seen + [s] <==> x in seen || x == s;
  }
}
