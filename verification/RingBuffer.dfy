/** The byte ring of lib/log.c: a circular buffer of variable-length messages that overwrites the
    oldest.  Its ghost contents are a sequence of messages; every method is tied to the queue
    discipline of LogMessages. */
module RingBuffer {
  import opened LogMessages

  function Advance(i: nat, n: nat, size: nat): (j: nat)
    requires i < size && n <= size
    ensures j < size
  {
    if i + n >= size then i + n - size else i + n
  }

  lemma AdvanceTwice(i: nat, a: nat, b: nat, size: nat)
    requires i < size && a + b <= size
    ensures Advance(Advance(i, a, size), b, size) == Advance(i, a + b, size)
  {
  }

  lemma AdvanceAligned(i: nat, a: nat, size: nat)
    requires i < size && a <= size && i % 8 == 0 && a % 8 == 0 && size % 8 == 0
    ensures Advance(i, a, size) % 8 == 0
  {
  }

  /** n bytes of a circular buffer, from start on. */
  function Circular(buf: Bytes, start: nat, n: nat): (b: Bytes)
    requires start < |buf| && n <= |buf|
    ensures |b| == n
  {
    seq(n, i requires 0 <= i < n => buf[Advance(start, i, |buf|)])
  }

  /** A circular stretch splits like a straight one. */
  lemma CircularSplit(buf: Bytes, start: nat, n: nat, k: nat)
    requires start < |buf| && k <= n <= |buf|
    ensures Circular(buf, start, n)[..k] == Circular(buf, start, k)
    ensures Circular(buf, start, n)[k..] == Circular(buf, Advance(start, k, |buf|), n - k)
  {
  }

  /** The buffer stores the messages, oldest at the read index, and the write index is just after
      the newest.  One byte always stays free, so equal indices mean an empty ring. */
  ghost predicate Stores(buf: Bytes, rd: nat, wr: nat, ms: seq<Message>)
  {
    && MIN_RING_SIZE <= |buf| < 0x8000_0000 && |buf| % 8 == 0
    && rd < |buf| && rd % 8 == 0
    && wr < |buf| && wr % 8 == 0
    && Total(ms) < |buf|
    && wr == Advance(rd, Total(ms), |buf|)
    && Circular(buf, rd, Total(ms)) == Flatten(ms)
  }

  lemma EqualIndicesMeanEmpty(buf: Bytes, rd: nat, wr: nat, ms: seq<Message>)
    requires Stores(buf, rd, wr, ms)
    ensures wr == rd <==> ms == []
  {
  }

  lemma HeaderInPlace(buf: Bytes, rd: nat, m: Message)
    requires |buf| % 8 == 0 && rd < |buf| && rd % 8 == 0 && |m| <= |buf|
    requires Circular(buf, rd, |m|) == m
    ensures rd + 8 <= |buf| && Word(buf[rd..rd + 4]) == |m|
  {
    forall k | 0 <= k < 4
      ensures buf[rd + k] == m[k]
    {
      assert m[k] == Circular(buf, rd, |m|)[k];
    }
  }

  lemma OldestFirst(buf: Bytes, rd: nat, ms: seq<Message>)
    requires rd < |buf| && Total(ms) < |buf| && ms != []
    requires Circular(buf, rd, Total(ms)) == Flatten(ms)
    ensures Circular(buf, rd, |ms[0]|) == ms[0]
    ensures Circular(buf, Advance(rd, |ms[0]|, |buf|), Total(ms[1..])) == Flatten(ms[1..])
  {
    CircularSplit(buf, rd, Total(ms), |ms[0]|);
    assert Flatten(ms)[..|ms[0]|] == ms[0] && Flatten(ms)[|ms[0]|..] == Flatten(ms[1..]);
  }

  /** The oldest message can be read at the read index, its header in one piece because indices
      are multiples of eight, and advancing past it leaves the rest stored. */
  lemma TakeOldest(buf: Bytes, rd: nat, wr: nat, ms: seq<Message>)
    requires Stores(buf, rd, wr, ms) && ms != []
    ensures rd + 8 <= |buf| && Word(buf[rd..rd + 4]) == |ms[0]|
    ensures Circular(buf, rd, |ms[0]|) == ms[0]
    ensures Stores(buf, Advance(rd, |ms[0]|, |buf|), wr, ms[1..])
  {
    OldestFirst(buf, rd, ms);
    HeaderInPlace(buf, rd, ms[0]);
    AdvanceTwice(rd, |ms[0]|, Total(ms[1..]), |buf|);
    AdvanceAligned(rd, |ms[0]|, |buf|);
  }

  predicate InStretch(k: nat, w: nat, n: nat, size: nat)
  {
    w <= k < w + n || (k < size && k < w + n - size)
  }

  /** Writing m right after a stretch, and nowhere else, extends the stretch by m. */
  lemma Extended(was: Bytes, now: Bytes, rd: nat, n: nat, m: Bytes)
    requires rd < |was| == |now| && n + |m| < |was|
    requires Circular(now, Advance(rd, n, |was|), |m|) == m
    requires forall k :: 0 <= k < |was| && !InStretch(k, Advance(rd, n, |was|), |m|, |was|) ==> now[k] == was[k]
    ensures Circular(now, rd, n + |m|) == Circular(was, rd, n) + m
  {
    var c := Circular(now, rd, n + |m|);
    CircularSplit(now, rd, n + |m|, n);
    forall k | 0 <= k < n
      ensures c[k] == Circular(was, rd, n)[k]
    {
      assert !InStretch(Advance(rd, k, |was|), Advance(rd, n, |was|), |m|, |was|);
    }
    assert c[..n] == Circular(was, rd, n);
    assert c == c[..n] + c[n..];
  }

  /** Writing a message at the write index, and nowhere else, stores it as the newest. */
  lemma StoreNewest(was: Bytes, now: Bytes, rd: nat, wr: nat, ms: seq<Message>, m: Message)
    requires Stores(was, rd, wr, ms) && Total(ms) + |m| < |was| == |now|
    requires Circular(now, wr, |m|) == m
    requires forall k :: 0 <= k < |was| && !InStretch(k, wr, |m|, |was|) ==> now[k] == was[k]
    ensures Stores(now, rd, Advance(wr, |m|, |was|), ms + [m])
  {
    Extended(was, now, rd, Total(ms), m);
    TotalAppend(ms, [m]);
    FlattenAppend(ms, [m]);
    assert Total([m]) == |m| && Flatten([m]) == m;
    AdvanceTwice(rd, Total(ms), |m|, |was|);
    AdvanceAligned(wr, |m|, |was|);
  }

  method CopyBytes(src: array<byte>, s: nat, dst: array<byte>, d: nat, n: nat)
    requires src != dst && s + n <= src.Length && d + n <= dst.Length
    modifies dst
    ensures dst[d..d + n] == src[s..s + n]
    ensures forall k :: 0 <= k < dst.Length && !(d <= k < d + n) ==> dst[k] == old(dst[k])
  {
    for i := 0 to n
      invariant forall k :: d <= k < d + i ==> dst[k] == src[s + k - d]
      invariant forall k :: 0 <= k < dst.Length && !(d <= k < d + i) ==> dst[k] == old(dst[k])
    {
      dst[d + i] := src[s + i];
    }
  }

  class Ring {
    const size: nat
    const buf: array<byte>
    var wridx: nat
    var rdidx: nat
    ghost var messages: seq<Message>

    ghost predicate Valid()
      reads this, buf
    {
      buf.Length == size && Stores(buf[..], rdidx, wridx, messages)
    }

    constructor (bytes: nat)
      requires MIN_RING_SIZE <= bytes < 0x8000_0000 && bytes % 8 == 0
      ensures Valid() && fresh(buf) && size == bytes && messages == []
    {
      size := bytes;
      buf := new byte[bytes];
      wridx, rdidx, messages := 0, 0, [];
    }

    /** Free bytes, computed from the indices alone (lib/log.c:944-952). */
    method Space() returns (n: nat)
      requires Valid()
      ensures n == size - Total(messages)
    {
      var w, r := wridx, rdidx;
      if w < r {
        w := w + size;
      }
      n := size - (w - r);
    }

    /** Copies msglen bytes from the read index, in two pieces when they reach the end of the ring. */
    method CopyOut(msg: array<byte>, msglen: nat)
      requires rdidx < size == buf.Length && msglen <= size && msg != buf && msglen <= msg.Length
      modifies msg
      ensures msg[..msglen] == Circular(buf[..], rdidx, msglen)
    {
      if rdidx + msglen >= size {
        var len := size - rdidx;
        CopyBytes(buf, rdidx, msg, 0, len);
        ghost var first := msg[..len];
        CopyBytes(buf, 0, msg, len, msglen - len);
        assert msg[..len] == first;
        assert msg[..msglen] == msg[..len] + msg[len..msglen];
      } else {
        CopyBytes(buf, rdidx, msg, 0, msglen);
      }
    }

    /** Reads the length of the oldest message from its header, and the message itself into msg. */
    method CopyOldest(msg: array?<byte>) returns (msglen: nat)
      requires Valid() && messages != []
      requires msg != null ==> msg != buf && msg.Length >= MSG_HDR_SIZE + MAX_MSG_SIZE
      modifies msg
      ensures msglen == |messages[0]|
      ensures msg != null ==> msg[..msglen] == messages[0]
    {
      TakeOldest(buf[..], rdidx, wridx, messages);
      assert buf[rdidx..rdidx + 4] == buf[..][rdidx..rdidx + 4];
      msglen := Word(buf[rdidx..rdidx + 4]);
      if msg != null {
        CopyOut(msg, msglen);
      }
    }

    method SkipOldest(msglen: nat)
      requires Valid() && messages != [] && msglen == |messages[0]|
      modifies this`rdidx, this`messages
      ensures Valid() && messages == old(messages)[1..]
    {
      TakeOldest(buf[..], rdidx, wridx, messages);
      var rest := msglen;
      if rdidx + rest >= size {
        rest := rest - (size - rdidx);
        rdidx := 0;
      }
      rdidx := rdidx + rest;
      messages := messages[1..];
    }

    /** Takes the oldest message, copying it to msg unless msg is null (lib/log.c:967-994). */
    method GetMessage(msg: array?<byte>) returns (ok: bool)
      requires Valid()
      requires msg != null ==> msg != buf && msg.Length >= MSG_HDR_SIZE + MAX_MSG_SIZE
      modifies this`rdidx, this`messages, msg
      ensures Valid()
      ensures ok == (old(messages) != [])
      ensures messages == if ok then old(messages)[1..] else []
      ensures ok && msg != null ==> msg[..|old(messages)[0]|] == old(messages)[0]
    {
      EqualIndicesMeanEmpty(buf[..], rdidx, wridx, messages);
      ok := wridx != rdidx;
      if ok {
        ghost var was := buf[..];
        var msglen := CopyOldest(msg);
        assert buf[..] == was;
        SkipOldest(msglen);
      }
    }

    /** Copies msglen bytes to the write index, in two pieces when they reach the end of the ring. */
    method CopyIn(msg: array<byte>, msglen: nat)
      requires wridx < size == buf.Length && msglen <= size && msg != buf && msglen <= msg.Length
      modifies buf
      ensures Circular(buf[..], wridx, msglen) == msg[..msglen]
      ensures forall k :: 0 <= k < size && !InStretch(k, wridx, msglen, size) ==> buf[k] == old(buf[k])
    {
      if wridx + msglen >= size {
        var len := size - wridx;
        CopyBytes(msg, 0, buf, wridx, len);
        ghost var first := buf[wridx..];
        CopyBytes(msg, len, buf, 0, msglen - len);
        assert buf[wridx..] == first;
        assert msg[..msglen] == msg[..len] + msg[len..msglen];
      } else {
        CopyBytes(msg, 0, buf, wridx, msglen);
      }
    }

    /** Discards the oldest messages until msglen bytes leave one free. */
    method MakeRoom(msglen: nat)
      requires Valid() && msglen <= MSG_HDR_SIZE + MAX_MSG_SIZE
      modifies this`rdidx, this`messages
      ensures Valid()
      ensures messages == DropUntilFits(old(messages), msglen, size)
      ensures Total(messages) + msglen < size
    {
      var n := Space();
      while n <= msglen
        invariant Valid() && n == size - Total(messages)
        invariant DropUntilFits(messages, msglen, size) == DropUntilFits(old(messages), msglen, size)
        decreases |messages|
      {
        var _ := GetMessage(null);
        n := Space();
      }
    }

    method Append(msg: array<byte>, msglen: nat, ghost m: Message)
      requires Valid() && Total(messages) + |m| < size
      requires msg != buf && msglen == |m| <= msg.Length && msg[..|m|] == m
      modifies this`wridx, this`messages, buf
      ensures Valid() && messages == old(messages) + [m]
    {
      ghost var was := buf[..];
      CopyIn(msg, msglen);
      StoreNewest(was, buf[..], rdidx, wridx, messages, m);
      var rest := msglen;
      if wridx + rest >= size {
        rest := rest - (size - wridx);
        wridx := 0;
      }
      wridx := wridx + rest;
      messages := messages + [m];
    }

    /** Appends a message, discarding the oldest ones for as long as there is no room
        (lib/log.c:1006-1033). */
    method PutMessage(msg: array<byte>, ghost m: Message)
      requires Valid()
      requires msg != buf && msg.Length >= |m| && msg[..|m|] == m
      modifies this`wridx, this`rdidx, this`messages, buf
      ensures Valid()
      ensures messages == DropUntilFits(old(messages), |m|, size) + [m]
    {
      assert msg[..4] == m[..4];
      var msglen := Word(msg[..4]);
      MakeRoom(msglen);
      Append(msg, msglen, m);
    }

    /** Forgets everything (lib/log.c:1155-1160). */
    method Clear()
      requires Valid()
      modifies this`wridx, this`rdidx, this`messages
      ensures Valid() && messages == []
    {
      wridx, rdidx, messages := 0, 0, [];
    }

    method PutBytes(m: Message, msg: array<byte>)
      requires Valid() && msg != buf && msg.Length >= MSG_HDR_SIZE + MAX_MSG_SIZE
      modifies this, buf, msg
      ensures Valid() && messages == DropUntilFits(old(messages), |m|, size) + [m]
    {
      ghost var was := buf[..];
      for k := 0 to |m|
        invariant msg[..k] == m[..k]
        invariant buf[..] == was && unchanged(this)
      {
        msg[k] := m[k];
      }
      PutMessage(msg, m);
    }

    method GetBytes(out: array<byte>) returns (got: seq<Bytes>)
      requires Valid() && out != buf && out.Length >= MSG_HDR_SIZE + MAX_MSG_SIZE
      modifies this, out
      ensures Valid() && messages == if old(messages) == [] then [] else old(messages)[1..]
      ensures got == if old(messages) == [] then [] else [old(messages)[0]]
    {
      ghost var before := messages;
      var ok := GetMessage(out);
      if ok {
        assert out[..|before[0]|][..4] == out[..4];
        got := [out[..Word(out[..4])]];
      } else {
        got := [];
      }
    }

    /** Any sequence of operations drives the bytes exactly as it drives the abstract queue, and every
        get hands out the bytes of the oldest retained message. */
    method Run(ops: seq<RingOp>, msg: array<byte>, out: array<byte>) returns (got: seq<Bytes>)
      requires Valid() && messages == []
      requires msg != buf && out != buf && msg != out
      requires msg.Length == out.Length == MSG_HDR_SIZE + MAX_MSG_SIZE
      modifies this, buf, msg, out
      ensures Valid() && messages == FifoRun(ops, size).content
      ensures got == FifoRun(ops, size).got
    {
      got := [];
      for i := 0 to |ops|
        invariant Valid()
        invariant messages == FifoRun(ops[..i], size).content
        invariant got == FifoRun(ops[..i], size).got
      {
        assert ops[..i + 1][..i] == ops[..i];
        match ops[i]
        case Put(m) => PutBytes(m, msg);
        case Get =>
          var one := GetBytes(out);
          got := got + one;
        case Clear => Clear();
      }
      assert ops[..|ops|] == ops;
    }
  }
}
