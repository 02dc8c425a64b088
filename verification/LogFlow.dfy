/** The flow of messages through a logging context (lib/log.c), with its history: through the
    normal rings, which may overwrite or be cleared, and through the write-through ring, which
    makes writers wait instead. */
module LogFlow {
  import opened Options
  import opened LogMessages
  import opened RingPool

  const WRTHRU_SIZE: nat := MAX_MSG_SIZE * 100

  // ----- Normal rings -----

  datatype Normal = Normal(
    pool: Pool,
    flight: seq<Message>,        // taken out by the write thread, not yet handed to the file writer
    put: seq<Message>,           // history: everything put into a normal ring
    wrote: seq<Message>,         // history: everything handed to the file writer
    overwritten: seq<Message>,
    cleared: seq<Message>,
    epoch: seq<Message>)         // put into the active ring since it became active or was cleared

  /** Written, in flight, in the ring being drained, in the locked rings. */
  function Committed(n: Normal): seq<Message>
    requires Sane(n.pool)
  {
    n.wrote + n.flight + Flushed(n.pool)
  }

  function Stream(n: Normal): seq<Message>
    requires Sane(n.pool)
  {
    Committed(n) + InActive(n.pool)
  }

  function Activated(n: Normal): (n': Normal)
    requires Sane(n.pool) && !MustWait(n.pool)
    ensures Sane(n'.pool) && n'.pool.active.Some?
  {
    if n.pool.active.Some? then n else n.(pool := Activate(n.pool), epoch := [])
  }

  function Dropped(n: Normal, m: Message): seq<Message>
    requires Sane(n.pool)
  {
    DroppedFor(InActive(n.pool), |m|, n.pool.size)
  }

  function AfterPut(n: Normal, m: Message): (n': Normal)
    requires Sane(n.pool) && n.pool.active.Some?
    ensures Sane(n'.pool) && n'.pool.active == n.pool.active
  {
    n.(pool := PutActive(n.pool, m), put := n.put + [m],
       overwritten := n.overwritten + Dropped(n, m), epoch := n.epoch + [m])
  }

  function AfterFlush(n: Normal): (n': Normal)
    requires Sane(n.pool) && n.pool.active.Some?
    ensures Sane(n'.pool)
  {
    n.(pool := Flush(n.pool))
  }

  function AfterClear(n: Normal): (n': Normal)
    requires Sane(n.pool) && n.pool.active.Some?
    ensures Sane(n'.pool)
  {
    n.(pool := ClearActive(n.pool), cleared := n.cleared + InActive(n.pool), epoch := [])
  }

  function AfterTake(n: Normal): (n': Normal)
    requires Sane(n.pool) && n.pool.held.Some? && n.pool.rings[n.pool.held.value] != []
    ensures Sane(n'.pool)
  {
    n.(pool := Take(n.pool), flight := [n.pool.rings[n.pool.held.value][0]])
  }

  function AfterWrite(n: Normal): Normal
  {
    n.(wrote := n.wrote + n.flight, flight := [])
  }

  /** a is what remains of b after leaving out some elements; f says which remain. */
  ghost predicate Embeds(a: seq<Message>, b: seq<Message>, f: seq<nat>)
  {
    && |f| == |a|
    && (forall i :: 0 <= i < |f| ==> f[i] < |b| && a[i] == b[f[i]])
    && (forall i, j :: 0 <= i < j < |f| ==> f[i] < f[j])
  }

  ghost predicate Subsequence(a: seq<Message>, b: seq<Message>)
  {
    exists f :: Embeds(a, b, f)
  }

  /** What came out, is on its way or waits in a ring is what was put, in order, less what was
      overwritten or cleared. */
  ghost predicate InOrder(n: Normal)
    requires Sane(n.pool)
  {
    && Subsequence(Stream(n), n.put)
    && multiset(n.put) == multiset(Stream(n)) + multiset(n.overwritten) + multiset(n.cleared)
  }

  /** The active ring holds the longest suffix, strictly shorter than the ring, of what was put into it. */
  predicate ActiveIsSuffix(n: Normal)
    requires Sane(n.pool)
  {
    n.pool.active.Some? ==> InActive(n.pool) == n.epoch[KeepFrom(n.epoch, n.pool.size)..]
  }

  ghost predicate NormalInv(n: Normal)
  {
    Placed(n.pool) && InOrder(n) && ActiveIsSuffix(n)
  }

  /** Nothing is lost or reordered on the way from n to n', and nothing that was written is taken back. */
  ghost predicate Carries(n: Normal, n': Normal)
    requires Sane(n.pool)
  {
    NormalInv(n') && Committed(n') == Committed(n) && n.wrote <= n'.wrote
  }

  /** Leaving out a middle piece of a subsequence and appending the element just put. */
  lemma SubsequencePut(p: seq<Message>, d: seq<Message>, k: seq<Message>, b: seq<Message>, m: Message)
    requires Subsequence(p + d + k, b)
    ensures Subsequence(p + k + [m], b + [m])
  {
    var a, c := p + d + k, p + k + [m];
    var f :| Embeds(a, b, f);
    var g := f[..|p|] + f[|p| + |d|..] + [|b|];
    forall i | 0 <= i < |g|
      ensures g[i] < |b| + 1 && c[i] == (b + [m])[g[i]]
    {
      if i < |p| {
        assert g[i] == f[i] && c[i] == a[i];
      } else if i < |p| + |k| {
        assert g[i] == f[i + |d|] && c[i] == a[i + |d|];
      }
    }
    assert Embeds(c, b + [m], g);
  }

  lemma SubsequenceTrim(p: seq<Message>, d: seq<Message>, b: seq<Message>)
    requires Subsequence(p + d, b)
    ensures Subsequence(p, b)
  {
    var f :| Embeds(p + d, b, f);
    forall i | 0 <= i < |p|
      ensures f[i] < |b| && p[i] == b[f[i]]
    {
      assert (p + d)[i] == p[i];
    }
    assert Embeds(p, b, f[..|p|]);
  }

  lemma SameStream(n: Normal, n': Normal)
    requires Sane(n.pool) && Sane(n'.pool) && InOrder(n) && Stream(n') == Stream(n)
    requires n'.put == n.put && n'.overwritten == n.overwritten && n'.cleared == n.cleared
    ensures InOrder(n')
  {
  }

  lemma ActivatedInv(n: Normal)
    requires NormalInv(n) && !MustWait(n.pool)
    ensures NormalInv(Activated(n)) && Committed(Activated(n)) == Committed(n)
  {
    if n.pool.active.None? {
      ActivatePlaced(n.pool);
      ActivateFlow(n.pool);
      SameStream(n, Activated(n));
    }
  }

  lemma PutInv(n: Normal, m: Message)
    requires NormalInv(n) && n.pool.active.Some?
    ensures NormalInv(AfterPut(n, m)) && Committed(AfterPut(n, m)) == Committed(n)
  {
    var kept := DropUntilFits(InActive(n.pool), |m|, n.pool.size);
    SetPlaced(n.pool, kept + [m]);
    SetFlow(n.pool, kept + [m]);
    PutInOrder(n, m, kept);
    DropFromSuffix(n.epoch, KeepFrom(n.epoch, n.pool.size), m, n.pool.size);
    KeepFromGrows(n.epoch, m, n.pool.size);
  }

  lemma Concat3(a: seq<Message>, b: seq<Message>, c: seq<Message>)
    ensures a + (b + c) == a + b + c
  {
  }

  lemma PutParts(n: Normal, m: Message, kept: seq<Message>)
    requires Placed(n.pool) && n.pool.active.Some?
    requires kept == DropUntilFits(InActive(n.pool), |m|, n.pool.size)
    ensures InActive(AfterPut(n, m).pool) == kept + [m] && Flushed(AfterPut(n, m).pool) == Flushed(n.pool)
  {
    SetFlow(n.pool, kept + [m]);
    assert AfterPut(n, m).pool == SetActive(n.pool, kept + [m]);
  }

  lemma DroppedAndKept(n: Normal, m: Message, kept: seq<Message>)
    requires Sane(n.pool) && kept == DropUntilFits(InActive(n.pool), |m|, n.pool.size)
    ensures InActive(n.pool) == Dropped(n, m) + kept
  {
    DropSplit(InActive(n.pool), |m|, n.pool.size);
  }

  /** What a put does to the stream: the dropped messages go and the new one comes. */
  lemma PutStream(n: Normal, n': Normal, d: seq<Message>, kept: seq<Message>, m: Message)
    requires Sane(n.pool) && Sane(n'.pool) && n'.wrote == n.wrote && n'.flight == n.flight
    requires Flushed(n'.pool) == Flushed(n.pool)
    requires InActive(n.pool) == d + kept && InActive(n'.pool) == kept + [m]
    ensures Stream(n) == Committed(n) + d + kept
    ensures Stream(n') == Committed(n) + kept + [m]
  {
    Concat3(Committed(n), d, kept);
    Concat3(Committed(n), kept, [m]);
  }

  lemma PutInOrder(n: Normal, m: Message, kept: seq<Message>)
    requires Placed(n.pool) && InOrder(n) && n.pool.active.Some?
    requires kept == DropUntilFits(InActive(n.pool), |m|, n.pool.size)
    ensures InOrder(AfterPut(n, m))
  {
    var n' := AfterPut(n, m);
    var c, d := Committed(n), Dropped(n, m);
    PutParts(n, m, kept);
    DroppedAndKept(n, m, kept);
    PutStream(n, n', d, kept, m);
    SubsequencePut(c, d, kept, n.put, m);
    AccountPut(n.put, c, d, kept, m, n.overwritten, n.cleared);
    OrderFrom(n', c + kept + [m], n.put + [m], n.overwritten + d);
  }

  lemma OrderFrom(n: Normal, stream: seq<Message>, put: seq<Message>, over: seq<Message>)
    requires Sane(n.pool) && Stream(n) == stream && n.put == put && n.overwritten == over
    requires Subsequence(stream, put)
    requires multiset(put) == multiset(stream) + multiset(over) + multiset(n.cleared)
    ensures InOrder(n)
  {
  }

  lemma AccountPut(put: seq<Message>, c: seq<Message>, d: seq<Message>, k: seq<Message>, m: Message,
                   over: seq<Message>, cleared: seq<Message>)
    requires multiset(put) == multiset(c + d + k) + multiset(over) + multiset(cleared)
    ensures multiset(put + [m]) == multiset(c + k + [m]) + multiset(over + d) + multiset(cleared)
  {
  }

  lemma FlushInv(n: Normal)
    requires NormalInv(n) && n.pool.active.Some?
    ensures NormalInv(AfterFlush(n)) && Committed(AfterFlush(n)) == Committed(n) + InActive(n.pool)
  {
    FlushPlaced(n.pool);
    FlushFlow(n.pool);
    var w, f := n.wrote + n.flight, Flushed(n.pool);
    assert w + (f + InActive(n.pool)) == w + f + InActive(n.pool);
    SameStream(n, AfterFlush(n));
  }

  lemma ClearInv(n: Normal)
    requires NormalInv(n) && n.pool.active.Some?
    ensures NormalInv(AfterClear(n)) && Committed(AfterClear(n)) == Committed(n)
  {
    SetPlaced(n.pool, []);
    SetFlow(n.pool, []);
    var n' := AfterClear(n);
    assert Stream(n') == Committed(n);
    SubsequenceTrim(Committed(n), InActive(n.pool), n.put);
    assert multiset(n'.cleared) == multiset(n.cleared) + multiset(InActive(n.pool));
  }

  lemma PopInv(n: Normal)
    requires NormalInv(n) && n.pool.locked != [] && n.pool.held.None?
    ensures Carries(n, n.(pool := Pop(n.pool)))
  {
    PopPlaced(n.pool);
    PopFlow(n.pool);
    SameStream(n, n.(pool := Pop(n.pool)));
  }

  lemma TakeInv(n: Normal)
    requires NormalInv(n) && n.flight == [] && n.pool.held.Some? && n.pool.rings[n.pool.held.value] != []
    ensures Carries(n, AfterTake(n))
  {
    TakePlaced(n.pool);
    TakeFlow(n.pool);
    assert n.wrote + n.flight == n.wrote;
    assert n.wrote + AfterTake(n).flight + Flushed(Take(n.pool))
        == n.wrote + (AfterTake(n).flight + Flushed(Take(n.pool)));
    SameStream(n, AfterTake(n));
  }

  lemma WriteInv(n: Normal)
    requires NormalInv(n)
    ensures Carries(n, AfterWrite(n))
  {
    assert n.wrote + n.flight + [] == n.wrote + n.flight;
    SameStream(n, AfterWrite(n));
  }

  lemma ReleaseInv(n: Normal)
    requires NormalInv(n) && n.pool.held.Some? && n.pool.rings[n.pool.held.value] == []
    ensures Carries(n, n.(pool := Release(n.pool)))
  {
    ReleasePlaced(n.pool);
    ReleaseFlow(n.pool);
    SameStream(n, n.(pool := Release(n.pool)));
  }

  // ----- The write-through ring -----

  datatype Through = Through(
    content: seq<Message>,
    flight: seq<Message>,
    put: seq<Message>,
    wrote: seq<Message>)

  function CommittedThrough(h: Through): seq<Message> { h.wrote + h.flight + h.content }

  /** No room, so a writer has to wait (lib/log.c:1052). */
  predicate Full(h: Through, m: Message) { Total(h.content) + |m| >= WRTHRU_SIZE }

  function ThroughPut(h: Through, m: Message): Through
  {
    h.(content := DropUntilFits(h.content, |m|, WRTHRU_SIZE) + [m], put := h.put + [m])
  }

  function ThroughTake(h: Through): Through
    requires h.content != []
  {
    h.(content := h.content[1..], flight := [h.content[0]])
  }

  function ThroughWrite(h: Through): Through
  {
    h.(wrote := h.wrote + h.flight, flight := [])
  }

  /** It never drops: what was put is exactly written, in flight, stored. */
  predicate ThroughInv(h: Through)
  {
    h.put == CommittedThrough(h) && Total(h.content) < WRTHRU_SIZE
  }

  lemma ThroughPutInv(h: Through, m: Message)
    requires ThroughInv(h) && !Full(h, m)
    ensures ThroughInv(ThroughPut(h, m)) && CommittedThrough(ThroughPut(h, m)) == CommittedThrough(h) + [m]
  {
    TotalAppend(h.content, [m]);
    assert ThroughPut(h, m).content == h.content + [m];
    assert h.wrote + h.flight + (h.content + [m]) == h.wrote + h.flight + h.content + [m];
  }

  lemma ThroughTakeInv(h: Through)
    requires ThroughInv(h) && h.content != [] && h.flight == []
    ensures ThroughInv(ThroughTake(h)) && CommittedThrough(ThroughTake(h)) == CommittedThrough(h)
  {
    var c := h.content;
    assert h.wrote + [] == h.wrote;
    assert h.wrote + [c[0]] + c[1..] == h.wrote + c;
  }

  lemma ThroughWriteInv(h: Through)
    requires ThroughInv(h)
    ensures ThroughInv(ThroughWrite(h)) && CommittedThrough(ThroughWrite(h)) == CommittedThrough(h)
  {
    assert h.wrote + h.flight + [] == h.wrote + h.flight;
  }
}
