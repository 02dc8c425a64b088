/** All outstanding requests for one path, and what a new request or a rollback does to the value
    the hardware should hold (daemon/pwrapi_worker.c:540-636, daemon/pwrapi_set.c:100-138). */
module PathRequests {
  import opened Priority

  /** The list holds the default and at most one request per client, as the other tables have them. */
  predicate Outstanding(attr: Attr, list: seq<Entry>, d: Entry, held: map<nat, Entry>, now: nat)
  {
    && Sorted(attr, list) && DistinctOwners(list) && OlderThan(list, now + 1)
    && d.owner == Default && d in list
    && (forall c :: c in held ==> held[c].owner == Client(c) && held[c] in list)
    && (forall x :: x in list ==> x == d || (x.owner.Client? && x.owner.id in held && held[x.owner.id] == x))
  }

  /** An owner's request is taken out and the new one sorted in. */
  function Renew(attr: Attr, list: seq<Entry>, e: Entry): (r: seq<Entry>)
  {
    Insert(attr, Without(list, e.owner), e)
  }

  lemma RenewKeeps(attr: Attr, list: seq<Entry>, e: Entry, now: nat)
    requires Sorted(attr, list) && DistinctOwners(list) && OlderThan(list, now + 1) && now < e.time
    ensures Sorted(attr, Renew(attr, list, e)) && DistinctOwners(Renew(attr, list, e))
    ensures OlderThan(Renew(attr, list, e), e.time + 1)
    ensures forall x :: x in Renew(attr, list, e) <==> x == e || (x in list && x.owner != e.owner)
  {
    var w, r := Without(list, e.owner), Renew(attr, list, e);
    WithoutKeeps(attr, list, e.owner);
    forall i | 0 <= i < |w|
      ensures w[i].time < e.time
    {
      assert w[i] in list;
    }
    InsertSorted(attr, w, e);
    InsertDistinct(attr, w, e);
    forall x
      ensures x in r <==> x == e || (x in list && x.owner != e.owner)
    {
      InsertContents(attr, w, e, x);
    }
    forall i | 0 <= i < |r|
      ensures r[i].time < e.time + 1
    {
      assert r[i] in r;
    }
  }

  lemma FirstDefault(attr: Attr, d: Entry)
    requires d.owner == Default
    ensures Renew(attr, [], d) == [d] && Outstanding(attr, [d], d, map[], d.time)
  {
  }

  lemma RenewDefault(attr: Attr, list: seq<Entry>, d0: Entry, held: map<nat, Entry>, now: nat, d: Entry)
    requires Outstanding(attr, list, d0, held, now) && d.owner == Default && now < d.time
    ensures Outstanding(attr, Renew(attr, list, d), d, held, d.time)
  {
    RenewKeeps(attr, list, d, now);
  }

  lemma RenewClient(attr: Attr, list: seq<Entry>, d: Entry, held: map<nat, Entry>, now: nat, e: Entry)
    requires Outstanding(attr, list, d, held, now) && e.owner.Client? && now < e.time
    ensures Outstanding(attr, Renew(attr, list, e), d, held[e.owner.id := e], e.time)
  {
    RenewKeeps(attr, list, e, now);
  }

  lemma DropClient(attr: Attr, list: seq<Entry>, d: Entry, held: map<nat, Entry>, now: nat, c: nat)
    requires Outstanding(attr, list, d, held, now)
    ensures Outstanding(attr, Without(list, Client(c)), d, held - {c}, now)
  {
    WithoutKeeps(attr, list, Client(c));
    var w := Without(list, Client(c));
    forall i | 0 <= i < |w|
      ensures w[i].time < now + 1
    {
      assert w[i] in w && w[i] in list;
    }
  }

  lemma OnlyDefaultLeft(attr: Attr, list: seq<Entry>, d: Entry, held: map<nat, Entry>, now: nat)
    requires Outstanding(attr, list, d, held, now) && held == map[]
    ensures list == [d]
  {
    assert list[0] in list && list[|list| - 1] in list;
    assert list[0] == d && list[|list| - 1] == d;
  }

  // ----- A new request -----

  lemma {:induction false} WithoutCommutes(list: seq<Entry>, a: Owner, b: Owner)
    ensures Without(Without(list, a), b) == Without(Without(list, b), a)
  {
    if list == [] || a == b {
    } else {
      var x, t := list[0], list[1..];
      WithoutCommutes(t, a, b);
      assert ([x] + Without(t, a))[1..] == Without(t, a);
      assert ([x] + Without(t, b))[1..] == Without(t, b);
    }
  }

  lemma InsertHead(attr: Attr, list: seq<Entry>, e: Entry)
    requires list != [] && Compare(attr, e, list[0]) > 0
    ensures Insert(attr, list, e) == [list[0]] + Insert(attr, list[1..], e)
  {
    SpliceBehindHead(list, Position(attr, list[1..], e), e);
  }

  lemma {:induction false} InsertThenWithout(attr: Attr, list: seq<Entry>, e: Entry)
    requires forall i :: 0 <= i < |list| ==> list[i].owner != e.owner
    ensures Without(Insert(attr, list, e), e.owner) == list
  {
    var r := Insert(attr, list, e);
    if list == [] || Compare(attr, e, list[0]) <= 0 {
      assert r == [e] + list;
    } else {
      InsertHead(attr, list, e);
      InsertThenWithout(attr, list[1..], e);
      assert r[1..] == Insert(attr, list[1..], e);
    }
  }

  /** The requests a new one from client c competes with: everyone else's, less the default if the client's
      requests are persistent, for then the default is replaced as well. */
  function Rivals(list: seq<Entry>, c: nat, persistent: bool): seq<Entry>
  {
    if persistent then Without(Without(list, Client(c)), Default) else Without(list, Client(c))
  }

  predicate Wins(attr: Attr, e: Entry, rivals: seq<Entry>)
  {
    rivals == [] || Compare(attr, e, rivals[0]) <= 0
  }

  /** The list after a new request e.  A persistent request first replaces the default by d. */
  function AfterSet(attr: Attr, list: seq<Entry>, d: Entry, e: Entry, persistent: bool): seq<Entry>
  {
    Renew(attr, if persistent then Renew(attr, list, d) else list, e)
  }

  lemma RenewedRivals(attr: Attr, list: seq<Entry>, d: Entry, c: nat)
    requires d.owner == Default && DistinctOwners(list) && Sorted(attr, list)
    ensures Without(Without(Renew(attr, list, d), Client(c)), Default) == Rivals(list, c, true)
  {
    var b := Without(list, Default);
    WithoutKeeps(attr, list, Default);
    forall i | 0 <= i < |b|
      ensures b[i].owner != Default
    {
      assert b[i] in b;
    }
    InsertThenWithout(attr, b, d);
    WithoutCommutes(Insert(attr, b, d), Client(c), Default);
    WithoutCommutes(list, Client(c), Default);
  }

  /** With the default of the same value among the rivals, the request is first exactly when it would be
      without it. */
  lemma HeadWithDefault(attr: Attr, l: seq<Entry>, d: Entry, e: Entry)
    requires Sorted(attr, l) && DistinctOwners(l) && d in l && d.owner == Default
    requires e.value == d.value && OlderThan(l, e.time)
    ensures Wins(attr, e, Without(l, Default)) ==> Wins(attr, e, l)
    ensures !Wins(attr, e, Without(l, Default)) ==> !Wins(attr, e, l) && l[0] == Without(l, Default)[0]
  {
    var r := Without(l, Default);
    var k := IndexOf(l, Default);
    assert k < |l| && l[k] == d by {
      var j :| 0 <= j < |l| && l[j] == d;
    }
    if l[0] == d && r != [] {
      assert r[0] == l[1] && Before(attr, d, l[1]);
    }
  }

  lemma PersistentOutcome(attr: Attr, list: seq<Entry>, now: nat, d: Entry, e: Entry)
    requires Sorted(attr, list) && DistinctOwners(list) && OlderThan(list, now + 1)
    requires d.owner == Default && d.value == e.value && now < d.time < e.time && e.owner.Client?
    ensures var r, l := Rivals(list, e.owner.id, true), Without(Renew(attr, list, d), e.owner);
            && (Wins(attr, e, r) ==> Wins(attr, e, l))
            && (!Wins(attr, e, r) ==> !Wins(attr, e, l) && l[0] == r[0])
  {
    var l1 := Renew(attr, list, d);
    RenewKeeps(attr, list, d, now);
    var l := Without(l1, e.owner);
    WithoutKeeps(attr, l1, e.owner);
    RenewedRivals(attr, list, d, e.owner.id);
    assert d in l;
    forall i | 0 <= i < |l|
      ensures l[i].time < e.time
    {
      assert l[i] in l1;
    }
    HeadWithDefault(attr, l, d, e);
  }

  /** A request that wins against its rivals becomes the head; otherwise the first rival does. */
  lemma SetOutcome(attr: Attr, list: seq<Entry>, now: nat, d: Entry, e: Entry, persistent: bool)
    requires Sorted(attr, list) && DistinctOwners(list) && OlderThan(list, now + 1)
    requires persistent ==> d.owner == Default && d.value == e.value && now < d.time < e.time
    requires now < e.time && e.owner.Client?
    ensures var r := Rivals(list, e.owner.id, persistent);
            var after := AfterSet(attr, list, d, e, persistent);
            && after != []
            && (Wins(attr, e, r) ==> after[0] == e)
            && (!Wins(attr, e, r) ==> after[0] == r[0] && Compare(attr, e, r[0]) > 0)
  {
    if persistent {
      PersistentOutcome(attr, list, now, d, e);
    }
  }

  // ----- Rolling back a client's request -----

  /** The hardware value after the client's request is taken out: the new head is written exactly when the
      request had priority over it. */
  function AfterRollback(attr: Attr, list: seq<Entry>, e: Entry, hw: real): real
    requires Without(list, e.owner) != []
  {
    var top := Without(list, e.owner)[0];
    if Compare(attr, e, top) < 0 then top.value else hw
  }

  /** If the hardware held the head's value before, it does so after. */
  lemma RollbackAgrees(attr: Attr, list: seq<Entry>, d: Entry, held: map<nat, Entry>, now: nat, e: Entry, hw: real)
    requires attr != OTHER && Outstanding(attr, list, d, held, now) && e in list && e.owner.Client?
    requires list[0].value == hw
    ensures Without(list, e.owner) != []
    ensures AfterRollback(attr, list, e, hw) == Without(list, e.owner)[0].value
  {
    WithoutKeeps(attr, list, e.owner);
    var w := Without(list, e.owner);
    assert d in w;
    var k :| 0 <= k < |list| && list[k] == e;
    if k > 0 {
      assert list[0].owner != e.owner;
      BeforeAndCompare(attr, list[0], e);
    } else {
      assert w == list[1..];
      BeforeAndCompare(attr, e, list[1]);
    }
  }
}
