/** The normal rings of a logging context and the queues they move through (lib/log.c): idle,
    then active, then locked, then held by the write thread, then idle again. */
module RingPool {
  import opened Options
  import opened LogMessages

  datatype Tag = IDLE | ACTIVE | LOCKED

  datatype Pool = Pool(
    size: nat,                  // bytes in each ring
    rings: seq<seq<Message>>,   // contents, as RingBuffer proves the byte rings to hold
    tags: seq<Tag>,
    idle: seq<nat>,
    active: Option<nat>,
    locked: seq<nat>,
    held: Option<nat>)          // the ring the write thread has popped and is draining

  predicate Within(q: seq<nat>, n: nat) { forall i :: 0 <= i < |q| ==> q[i] < n }

  predicate Sane(p: Pool)
  {
    && p.size >= MIN_RING_SIZE && |p.tags| == |p.rings|
    && Within(p.idle, |p.rings|) && Within(p.locked, |p.rings|)
    && (p.active.Some? ==> p.active.value < |p.rings|)
    && (p.held.Some? ==> p.held.value < |p.rings|)
  }

  // ----- Moves -----

  predicate MustWait(p: Pool) { p.active.None? && p.idle == [] }

  /** The first idle ring becomes active unless one is (lib/log.c:1100-1106). */
  function Activate(p: Pool): (p': Pool)
    requires Sane(p) && !MustWait(p)
    ensures Sane(p') && p'.active.Some?
  {
    if p.active.Some? then p
    else p.(active := Some(p.idle[0]), idle := p.idle[1..], tags := p.tags[p.idle[0] := ACTIVE])
  }

  function SetActive(p: Pool, content: seq<Message>): (p': Pool)
    requires Sane(p) && p.active.Some?
    ensures Sane(p') && p'.active == p.active
  {
    p.(rings := p.rings[p.active.value := content])
  }

  function PutActive(p: Pool, m: Message): (p': Pool)
    requires Sane(p) && p.active.Some?
    ensures Sane(p') && p'.active == p.active
  {
    SetActive(p, DropUntilFits(p.rings[p.active.value], |m|, p.size) + [m])
  }

  /** An active ring is frozen and queued for the write thread (lib/log.c:1132-1137). */
  function Flush(p: Pool): (p': Pool)
    requires Sane(p) && p.active.Some?
    ensures Sane(p')
  {
    if p.tags[p.active.value] == ACTIVE then
      p.(tags := p.tags[p.active.value := LOCKED], locked := p.locked + [p.active.value], active := None)
    else p
  }

  /** lib/log.c:1155-1160. */
  function ClearActive(p: Pool): (p': Pool)
    requires Sane(p) && p.active.Some?
    ensures Sane(p')
  {
    SetActive(p, [])
  }

  /** The write thread pops a locked ring (lib/log.c:2177-2178). */
  function Pop(p: Pool): (p': Pool)
    requires Sane(p) && p.locked != []
    ensures Sane(p')
  {
    p.(locked := p.locked[1..], held := Some(p.locked[0]))
  }

  /** It takes one message out of the ring it holds (lib/log.c:2181-2182). */
  function Take(p: Pool): (p': Pool)
    requires Sane(p) && p.held.Some? && p.rings[p.held.value] != []
    ensures Sane(p')
  {
    p.(rings := p.rings[p.held.value := p.rings[p.held.value][1..]])
  }

  /** It returns a drained ring to the idle queue (lib/log.c:2197-2198). */
  function Release(p: Pool): (p': Pool)
    requires Sane(p) && p.held.Some?
    ensures Sane(p')
  {
    p.(tags := p.tags[p.held.value := IDLE], idle := p.idle + [p.held.value], held := None)
  }

  // ----- Every ring in exactly one place -----

  predicate Distinct(q: seq<nat>) { forall i, j :: 0 <= i < j < |q| ==> q[i] != q[j] }

  /** Queues have no repeats; the tag of a ring says which queue it is in, and it is in that one;
      idle rings are empty. */
  predicate Placed(p: Pool)
  {
    && Sane(p)
    && Distinct(p.idle) && Distinct(p.locked)
    && (forall i :: 0 <= i < |p.idle| ==> p.tags[p.idle[i]] == IDLE && p.rings[p.idle[i]] == [])
    && (forall i :: 0 <= i < |p.locked| ==> p.tags[p.locked[i]] == LOCKED)
    && (p.active.Some? ==> p.tags[p.active.value] == ACTIVE)
    && (p.held.Some? ==> p.tags[p.held.value] == LOCKED && p.held.value !in p.locked)
    && (forall r :: 0 <= r < |p.rings| ==> InTaggedPlace(p, r))
  }

  predicate InTaggedPlace(p: Pool, r: nat)
    requires r < |p.tags|
  {
    match p.tags[r]
    case IDLE => r in p.idle
    case ACTIVE => p.active == Some(r)
    case LOCKED => r in p.locked || p.held == Some(r)
  }

  /** The number of places a ring is in. */
  function PlacesOf(p: Pool, r: nat): nat
  {
    multiset(p.idle)[r] + (if p.active == Some(r) then 1 else 0)
    + multiset(p.locked)[r] + (if p.held == Some(r) then 1 else 0)
  }

  lemma {:induction false} CountDistinct(q: seq<nat>, r: nat)
    requires Distinct(q)
    ensures multiset(q)[r] == if r in q then 1 else 0
  {
    if q == [] {
    } else {
      assert q == [q[0]] + q[1..];
      CountDistinct(q[1..], r);
      assert forall i :: 0 <= i < |q[1..]| ==> q[1..][i] == q[i + 1];
    }
  }

  /** Counting occurrences: every ring is in exactly one of idle queue, active pointer, locked queue
      and write thread's hand; its tag tells which, and an idle ring is empty. */
  lemma ExactlyOnePlace(p: Pool, r: nat)
    requires Placed(p) && r < |p.rings|
    ensures PlacesOf(p, r) == 1
    ensures p.tags[r] == IDLE <==> r in p.idle
    ensures p.tags[r] == ACTIVE <==> p.active == Some(r)
    ensures p.tags[r] == LOCKED <==> r in p.locked || p.held == Some(r)
    ensures r in p.idle ==> p.rings[r] == []
  {
    CountDistinct(p.idle, r);
    CountDistinct(p.locked, r);
    assert InTaggedPlace(p, r);
  }

  lemma PopHead(q: seq<nat>)
    requires Distinct(q) && q != []
    ensures Distinct(q[1..]) && q[0] !in q[1..]
    ensures forall r :: r in q <==> r == q[0] || r in q[1..]
  {
    assert q == [q[0]] + q[1..];
  }

  lemma PushTail(q: seq<nat>, x: nat)
    requires Distinct(q) && x !in q
    ensures Distinct(q + [x])
    ensures forall r :: r in q + [x] <==> r == x || r in q
  {
  }

  lemma ActivatePlaced(p: Pool)
    requires Placed(p) && !MustWait(p)
    ensures Placed(Activate(p))
    ensures p.active.None? ==> Activate(p).rings[Activate(p).active.value] == []
  {
    if p.active.None? {
      PopHead(p.idle);
      forall r | 0 <= r < |p.rings|
        ensures InTaggedPlace(Activate(p), r)
      {
        assert InTaggedPlace(p, r);
      }
    }
  }

  /** Rings are reused in the order in which they became idle. */
  lemma LongestIdleFirst(p: Pool, p': Pool)
    requires Sane(p) && !MustWait(p) && p.active.None? && p' == Activate(p)
    ensures p.idle == [p'.active.value] + p'.idle
  {
  }

  lemma SetPlaced(p: Pool, content: seq<Message>)
    requires Placed(p) && p.active.Some?
    ensures Placed(SetActive(p, content))
  {
    forall r | 0 <= r < |p.rings|
      ensures InTaggedPlace(SetActive(p, content), r)
    {
      assert InTaggedPlace(p, r);
    }
  }

  lemma FlushPlaced(p: Pool)
    requires Placed(p) && p.active.Some?
    ensures Placed(Flush(p))
  {
    assert p.active.value !in p.locked;
    PushTail(p.locked, p.active.value);
    forall r | 0 <= r < |p.rings|
      ensures InTaggedPlace(Flush(p), r)
    {
      assert InTaggedPlace(p, r);
    }
  }

  lemma PopPlaced(p: Pool)
    requires Placed(p) && p.locked != [] && p.held.None?
    ensures Placed(Pop(p))
  {
    PopHead(p.locked);
    forall r | 0 <= r < |p.rings|
      ensures InTaggedPlace(Pop(p), r)
    {
      assert InTaggedPlace(p, r);
    }
  }

  lemma TakePlaced(p: Pool)
    requires Placed(p) && p.held.Some? && p.rings[p.held.value] != []
    ensures Placed(Take(p))
  {
    forall r | 0 <= r < |p.rings|
      ensures InTaggedPlace(Take(p), r)
    {
      assert InTaggedPlace(p, r);
    }
  }

  lemma ReleasePlaced(p: Pool)
    requires Placed(p) && p.held.Some? && p.rings[p.held.value] == []
    ensures Placed(Release(p))
  {
    assert p.held.value !in p.idle;
    PushTail(p.idle, p.held.value);
    forall r | 0 <= r < |p.rings|
      ensures InTaggedPlace(Release(p), r)
    {
      assert InTaggedPlace(p, r);
    }
  }

  // ----- What the rings hold, in delivery order -----

  function Queue(rings: seq<seq<Message>>, q: seq<nat>): seq<Message>
    requires Within(q, |rings|)
  {
    if q == [] then [] else rings[q[0]] + Queue(rings, q[1..])
  }

  function InHeld(p: Pool): seq<Message>
    requires Sane(p)
  {
    if p.held.Some? then p.rings[p.held.value] else []
  }

  function InActive(p: Pool): seq<Message>
    requires Sane(p)
  {
    if p.active.Some? then p.rings[p.active.value] else []
  }

  /** Flushed but not yet taken out: the held ring, then the locked queue. */
  function Flushed(p: Pool): seq<Message>
    requires Sane(p)
  {
    InHeld(p) + Queue(p.rings, p.locked)
  }

  lemma {:induction false} QueueFrame(rings: seq<seq<Message>>, q: seq<nat>, r: nat, c: seq<Message>)
    requires Within(q, |rings|) && r < |rings| && r !in q
    ensures Queue(rings[r := c], q) == Queue(rings, q)
  {
    if q == [] {
    } else {
      QueueFrame(rings, q[1..], r, c);
    }
  }

  lemma {:induction false} QueueAppend(rings: seq<seq<Message>>, q: seq<nat>, r: nat)
    requires Within(q, |rings|) && r < |rings|
    ensures Queue(rings, q + [r]) == Queue(rings, q) + rings[r]
  {
    if q == [] {
      assert q + [r] == [r];
      assert Queue(rings, [r]) == rings[r] + Queue(rings, []);
    } else {
      assert (q + [r])[1..] == q[1..] + [r];
      QueueAppend(rings, q[1..], r);
    }
  }

  lemma ActivateFlow(p: Pool)
    requires Placed(p) && !MustWait(p)
    ensures Flushed(Activate(p)) == Flushed(p) && InActive(Activate(p)) == InActive(p)
  {
    ActivatePlaced(p);
  }

  lemma SetFlow(p: Pool, content: seq<Message>)
    requires Placed(p) && p.active.Some?
    ensures Flushed(SetActive(p, content)) == Flushed(p)
    ensures InActive(SetActive(p, content)) == content
  {
    QueueFrame(p.rings, p.locked, p.active.value, content);
  }

  lemma FlushFlow(p: Pool)
    requires Placed(p) && p.active.Some?
    ensures Flushed(Flush(p)) == Flushed(p) + InActive(p) && InActive(Flush(p)) == []
  {
    QueueAppend(p.rings, p.locked, p.active.value);
    assert InHeld(p) + (Queue(p.rings, p.locked) + InActive(p)) == InHeld(p) + Queue(p.rings, p.locked) + InActive(p);
  }

  lemma PopFlow(p: Pool)
    requires Placed(p) && p.locked != [] && p.held.None?
    ensures Flushed(Pop(p)) == Flushed(p) && InActive(Pop(p)) == InActive(p)
  {
  }

  lemma TakeFlow(p: Pool)
    requires Placed(p) && p.held.Some? && p.rings[p.held.value] != []
    ensures [p.rings[p.held.value][0]] + Flushed(Take(p)) == Flushed(p) && InActive(Take(p)) == InActive(p)
  {
    var c := p.rings[p.held.value];
    QueueFrame(p.rings, p.locked, p.held.value, c[1..]);
    assert c == [c[0]] + c[1..];
    var q := Queue(p.rings, p.locked);
    assert [c[0]] + (c[1..] + q) == [c[0]] + c[1..] + q;
  }

  lemma ReleaseFlow(p: Pool)
    requires Placed(p) && p.held.Some? && p.rings[p.held.value] == []
    ensures Flushed(Release(p)) == Flushed(p) && InActive(Release(p)) == InActive(p)
  {
  }
}
