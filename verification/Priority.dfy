/** Priority of attribute set requests (daemon/pwrapi_set.c): how two requests for one path compare,
    and the sorted list of all outstanding requests, highest priority first. */
module Priority {

  datatype Attr =
    | CSTATE_LIMIT | FREQ_REQ | FREQ_LIMIT_MAX | POWER_LIMIT_MAX
    | FREQ_LIMIT_MIN | POWER_LIMIT_MIN
    | GOV
    | OTHER

  /** PWR_GOV_LINUX_USERSPACE.  Integers, governors included, are embedded in the reals. */
  const USERSPACE: real := 4.0

  /** Whose request it is: the default of the path, or a client's. */
  datatype Owner = Default | Client(id: nat)

  datatype Entry = Entry(owner: Owner, value: real, time: nat)

  function ValueCompare(a: real, b: real): int
  {
    if a == b then 0 else if a < b then -1 else 1
  }

  function GovCompare(e: Entry, f: Entry): int
  {
    if e.value == f.value then 0
    else if e.value == USERSPACE then -1
    else if f.value == USERSPACE then 1
    else if e.time > f.time then -1 else 1
  }

  /** Negative when e has priority over f (daemon/pwrapi_set.c:276-320). */
  function Compare(attr: Attr, e: Entry, f: Entry): int
  {
    match attr
    case CSTATE_LIMIT => ValueCompare(e.value, f.value)
    case FREQ_REQ => ValueCompare(e.value, f.value)
    case FREQ_LIMIT_MAX => ValueCompare(e.value, f.value)
    case POWER_LIMIT_MAX => ValueCompare(e.value, f.value)
    case FREQ_LIMIT_MIN => ValueCompare(f.value, e.value)
    case POWER_LIMIT_MIN => ValueCompare(f.value, e.value)
    case GOV => GovCompare(e, f)
    case OTHER => 0
  }

  predicate LowestWins(attr: Attr)
  {
    attr == CSTATE_LIMIT || attr == FREQ_REQ || attr == FREQ_LIMIT_MAX || attr == POWER_LIMIT_MAX
  }

  predicate HighestWins(attr: Attr) { attr == FREQ_LIMIT_MIN || attr == POWER_LIMIT_MIN }

  /** The governor comparison is no order: of three governors set one after the other, the first and the
      last tie, yet the last beats the second and the second beats the first. */
  lemma GovCompareIsNotTransitive()
    ensures exists a: Entry, b: Entry, c: Entry ::
              a.time < b.time < c.time && GovCompare(a, c) == 0 && GovCompare(c, b) < 0 && GovCompare(b, a) < 0
  {
    var a, b, c := Entry(Client(1), 0.0, 1), Entry(Client(2), 1.0, 2), Entry(Client(3), 0.0, 3);
    assert GovCompare(a, c) == 0 && GovCompare(c, b) < 0 && GovCompare(b, a) < 0;
  }

  // ----- The sorted list -----

  /** Where g_slist_insert_sorted puts e: before the first element that does not beat it. */
  function Position(attr: Attr, list: seq<Entry>, e: Entry): (k: nat)
    ensures k <= |list|
    ensures forall i :: 0 <= i < k ==> Compare(attr, e, list[i]) > 0
    ensures k < |list| ==> Compare(attr, e, list[k]) <= 0
  {
    if list == [] || Compare(attr, e, list[0]) <= 0 then 0 else 1 + Position(attr, list[1..], e)
  }

  function Insert(attr: Attr, list: seq<Entry>, e: Entry): (r: seq<Entry>)
    ensures |r| == |list| + 1
  {
    var k := Position(attr, list, e);
    list[..k] + [e] + list[k..]
  }

  function IndexOf(list: seq<Entry>, o: Owner): (k: nat)
    ensures k <= |list|
    ensures k < |list| ==> list[k].owner == o
    ensures forall i :: 0 <= i < k ==> list[i].owner != o
  {
    if list == [] || list[0].owner == o then 0 else 1 + IndexOf(list[1..], o)
  }

  /** g_slist_remove: the request of that owner, if there is one. */
  function Without(list: seq<Entry>, o: Owner): (r: seq<Entry>)
  {
    if list == [] then []
    else if list[0].owner == o then list[1..]
    else [list[0]] + Without(list[1..], o)
  }

  lemma {:induction false} WithoutIsCut(list: seq<Entry>, o: Owner)
    ensures var k := IndexOf(list, o);
            Without(list, o) == if k < |list| then list[..k] + list[k + 1..] else list
  {
    if list == [] || list[0].owner == o {
    } else {
      var t, k := list[1..], IndexOf(list[1..], o);
      WithoutIsCut(t, o);
      if k < |t| {
        CutBehindHead(list, k);
      } else {
        assert list == [list[0]] + t;
      }
    }
  }

  lemma CutBehindHead<T>(s: seq<T>, k: nat)
    requires k + 1 < |s|
    ensures [s[0]] + (s[1..][..k] + s[1..][k + 1..]) == s[..k + 1] + s[k + 2..]
  {
  }

  lemma SpliceBehindHead<T>(s: seq<T>, k: nat, e: T)
    requires s != [] && k <= |s[1..]|
    ensures [s[0]] + (s[1..][..k] + [e] + s[1..][k..]) == s[..k + 1] + [e] + s[k + 1..]
  {
  }

  predicate DistinctOwners(list: seq<Entry>)
  {
    forall i, j :: 0 <= i < j < |list| ==> list[i].owner != list[j].owner
  }

  /** The order the list keeps: by value, or for governors userspace first and then the newest first. */
  predicate Before(attr: Attr, e: Entry, f: Entry)
  {
    match attr
    case GOV => if (e.value == USERSPACE) != (f.value == USERSPACE) then e.value == USERSPACE else e.time > f.time
    case OTHER => true
    case _ => Compare(attr, e, f) <= 0
  }

  predicate Sorted(attr: Attr, list: seq<Entry>)
  {
    forall i, j :: 0 <= i < j < |list| ==> Before(attr, list[i], list[j])
  }

  predicate OlderThan(list: seq<Entry>, time: nat)
  {
    forall i :: 0 <= i < |list| ==> list[i].time < time
  }

  lemma FreshBelongs(attr: Attr, list: seq<Entry>, e: Entry, i: nat)
    requires Sorted(attr, list) && OlderThan(list, e.time) && i < |list|
    ensures i < Position(attr, list, e) ==> Before(attr, list[i], e)
    ensures i >= Position(attr, list, e) ==> Before(attr, e, list[i])
  {
    var k := Position(attr, list, e);
    if i > k {
      assert Before(attr, list[k], list[i]);
      BeforeChain(attr, e, list[k], list[i]);
    }
  }

  lemma BeforeChain(attr: Attr, e: Entry, f: Entry, g: Entry)
    requires f.time < e.time && g.time < e.time && Compare(attr, e, f) <= 0 && Before(attr, f, g)
    ensures Before(attr, e, g)
  {
  }

  lemma SpliceSorted(attr: Attr, list: seq<Entry>, e: Entry, k: nat)
    requires Sorted(attr, list) && k <= |list|
    requires forall i :: 0 <= i < k ==> Before(attr, list[i], e)
    requires forall i :: k <= i < |list| ==> Before(attr, e, list[i])
    ensures Sorted(attr, list[..k] + [e] + list[k..])
  {
    var r := list[..k] + [e] + list[k..];
    forall i, j | 0 <= i < j < |r|
      ensures Before(attr, r[i], r[j])
    {
      assert i < k ==> r[i] == list[i];
      assert i > k ==> r[i] == list[i - 1];
      assert j < k ==> r[j] == list[j];
      assert j > k ==> r[j] == list[j - 1];
    }
  }

  /** Inserting a request with a fresh timestamp keeps the list sorted, for governors too although their
      comparison is no order. */
  lemma InsertSorted(attr: Attr, list: seq<Entry>, e: Entry)
    requires Sorted(attr, list) && OlderThan(list, e.time)
    ensures Sorted(attr, Insert(attr, list, e))
  {
    var k := Position(attr, list, e);
    forall i | 0 <= i < |list|
      ensures i < k ==> Before(attr, list[i], e)
      ensures i >= k ==> Before(attr, e, list[i])
    {
      FreshBelongs(attr, list, e, i);
    }
    SpliceSorted(attr, list, e, k);
  }

  lemma InsertContents(attr: Attr, list: seq<Entry>, e: Entry, x: Entry)
    ensures x in Insert(attr, list, e) <==> x == e || x in list
  {
    var k := Position(attr, list, e);
    assert list == list[..k] + list[k..];
    assert x in list <==> x in list[..k] || x in list[k..];
  }

  lemma SpliceDistinct(list: seq<Entry>, e: Entry, k: nat)
    requires DistinctOwners(list) && k <= |list| && forall i :: 0 <= i < |list| ==> list[i].owner != e.owner
    ensures DistinctOwners(list[..k] + [e] + list[k..])
  {
    var r := list[..k] + [e] + list[k..];
    forall i, j | 0 <= i < j < |r|
      ensures r[i].owner != r[j].owner
    {
      assert i < k ==> r[i] == list[i];
      assert i > k ==> r[i] == list[i - 1];
      assert j < k ==> r[j] == list[j];
      assert j > k ==> r[j] == list[j - 1];
    }
  }

  lemma InsertDistinct(attr: Attr, list: seq<Entry>, e: Entry)
    requires DistinctOwners(list) && IndexOf(list, e.owner) == |list|
    ensures DistinctOwners(Insert(attr, list, e))
  {
    SpliceDistinct(list, e, Position(attr, list, e));
  }

  lemma CutOrder(attr: Attr, list: seq<Entry>, k: nat)
    requires Sorted(attr, list) && DistinctOwners(list) && k < |list|
    ensures Sorted(attr, list[..k] + list[k + 1..]) && DistinctOwners(list[..k] + list[k + 1..])
  {
    var r := list[..k] + list[k + 1..];
    assert forall i :: 0 <= i < |r| ==> r[i] == list[if i < k then i else i + 1];
  }

  lemma WithoutContents(list: seq<Entry>, o: Owner, x: Entry)
    requires DistinctOwners(list)
    ensures x in Without(list, o) <==> x in list && x.owner != o
  {
    var k := IndexOf(list, o);
    WithoutIsCut(list, o);
    if k < |list| {
      assert list == list[..k] + [list[k]] + list[k + 1..];
      assert forall i :: k < i < |list| ==> list[i].owner != o;
      assert x in list <==> x in list[..k] || x == list[k] || x in list[k + 1..];
    }
  }

  /** Removal keeps order and everyone else's request. */
  lemma WithoutKeeps(attr: Attr, list: seq<Entry>, o: Owner)
    requires Sorted(attr, list) && DistinctOwners(list)
    ensures Sorted(attr, Without(list, o)) && DistinctOwners(Without(list, o))
    ensures IndexOf(Without(list, o), o) == |Without(list, o)|
    ensures forall x :: x in Without(list, o) <==> x in list && x.owner != o
  {
    forall x
      ensures x in Without(list, o) <==> x in list && x.owner != o
    {
      WithoutContents(list, o, x);
    }
    WithoutOrder(attr, list, o);
    AbsentOwner(Without(list, o), o);
  }

  lemma WithoutOrder(attr: Attr, list: seq<Entry>, o: Owner)
    requires Sorted(attr, list) && DistinctOwners(list)
    ensures Sorted(attr, Without(list, o)) && DistinctOwners(Without(list, o))
  {
    WithoutIsCut(list, o);
    if IndexOf(list, o) < |list| {
      CutOrder(attr, list, IndexOf(list, o));
    }
  }

  lemma AbsentOwner(list: seq<Entry>, o: Owner)
    requires forall x :: x in list ==> x.owner != o
    ensures IndexOf(list, o) == |list|
  {
    assert forall i :: 0 <= i < |list| ==> list[i] in list;
  }

  /** What a later request is worth against an earlier one in the list. */
  lemma BeforeAndCompare(attr: Attr, e: Entry, f: Entry)
    requires attr != OTHER && Before(attr, e, f)
    ensures Compare(attr, f, e) >= 0
    ensures Compare(attr, e, f) < 0 || e.value == f.value
  {
  }

  /** For value attributes the head is the minimum, or the maximum, of all outstanding values. */
  lemma HeadIsExtreme(attr: Attr, list: seq<Entry>, i: nat)
    requires Sorted(attr, list) && i < |list|
    ensures LowestWins(attr) ==> list[0].value <= list[i].value
    ensures HighestWins(attr) ==> list[i].value <= list[0].value
    ensures attr == GOV && list[i].value == USERSPACE ==> list[0].value == USERSPACE
    ensures attr == GOV && list[0].value != USERSPACE && i > 0 ==> list[i].time < list[0].time
  {
    if i > 0 {
      assert Before(attr, list[0], list[i]);
    }
  }

  /** A sorted governor list: userspace requests first, then all others, each block newest first. */
  lemma {:induction false} GovernorBlocks(list: seq<Entry>) returns (k: nat)
    requires Sorted(GOV, list)
    ensures k <= |list|
    ensures forall i :: 0 <= i < |list| ==> (list[i].value == USERSPACE <==> i < k)
    ensures forall i, j :: 0 <= i < j < k ==> list[i].time > list[j].time
    ensures forall i, j :: k <= i < j < |list| ==> list[i].time > list[j].time
  {
    if list == [] || list[0].value != USERSPACE {
      k := 0;
      forall i | 0 <= i < |list|
        ensures list[i].value != USERSPACE
      {
        if i > 0 { assert Before(GOV, list[0], list[i]); }
      }
    } else {
      var t := list[1..];
      var n := GovernorBlocks(t);
      k := n + 1;
      forall i | 0 <= i < |list|
        ensures list[i].value == USERSPACE <==> i < k
      {
        if i > 0 { assert list[i] == t[i - 1]; }
      }
    }
    forall i, j | 0 <= i < j < |list| && (j < k || k <= i)
      ensures list[i].time > list[j].time
    {
      assert Before(GOV, list[i], list[j]);
    }
  }
}
