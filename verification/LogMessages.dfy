/** Log messages as the ring stores them, and the abstract queue discipline of one ring
    (lib/log.c).  A message is the byte image of a msgblk_t: its first four bytes hold its own
    length, which is a multiple of eight and at most 4000.  The ring itself is in RingBuffer. */
module LogMessages {

  type byte = b: int | 0 <= b < 256

  type Bytes = seq<byte>

  const MSG_HDR_SIZE: nat := 32
  const MAX_MSG_SIZE: nat := 3968
  const MIN_RING_SIZE: nat := 4096

  /** Bytes occupied by a message whose text has the given length: header, text and NUL,
      rounded up to a multiple of eight (lib/log.c:597-603). */
  function MessageLength(txtlen: nat): (n: nat)
  {
    var n := 1 + txtlen + MSG_HDR_SIZE;
    n + (8 - n % 8) % 8
  }

  /** Every text that the formatter can produce (it truncates at MAX_MSG_SIZE - 1) gives a
      length that the ring can store, and the padding is less than eight bytes. */
  lemma FormattedLengthFits(txtlen: nat)
    requires txtlen <= MAX_MSG_SIZE - 1
    ensures MessageLength(txtlen) % 8 == 0
    ensures 1 + txtlen + MSG_HDR_SIZE <= MessageLength(txtlen) < 1 + txtlen + MSG_HDR_SIZE + 8
    ensures 40 <= MessageLength(txtlen) <= MSG_HDR_SIZE + MAX_MSG_SIZE
  {
    var n := 1 + txtlen + MSG_HDR_SIZE;
    assert n % 8 == 0 || (n + (8 - n % 8)) % 8 == 0;
  }

  /** The little-endian 32-bit word at the start of a byte string. */
  function Word(b: Bytes): (w: nat)
    requires |b| >= 4
  {
    var b0: int, b1: int, b2: int, b3: int := b[0], b[1], b[2], b[3];
    b0 + 256 * b1 + 65536 * b2 + 16777216 * b3
  }

  predicate IsMessage(m: Bytes)
  {
    40 <= |m| <= MSG_HDR_SIZE + MAX_MSG_SIZE && |m| % 8 == 0 && Word(m) == |m|
  }

  type Message = m: Bytes | IsMessage(m)
    witness [40, 0, 0, 0] + seq(36, _ => 0)

  function Total(ms: seq<Message>): (n: nat)
    ensures |ms| > 0 ==> n >= 40
    ensures n % 8 == 0
  {
    if ms == [] then 0 else |ms[0]| + Total(ms[1..])
  }

  function Flatten(ms: seq<Message>): (b: Bytes)
    ensures |b| == Total(ms)
  {
    if ms == [] then [] else ms[0] + Flatten(ms[1..])
  }

  lemma {:induction false} TotalAppend(a: seq<Message>, b: seq<Message>)
    ensures Total(a + b) == Total(a) + Total(b)
  {
    if a == [] {
      assert a + b == b;
    } else {
      assert (a + b)[1..] == a[1..] + b;
      TotalAppend(a[1..], b);
    }
  }

  lemma {:induction false} FlattenAppend(a: seq<Message>, b: seq<Message>)
    ensures Flatten(a + b) == Flatten(a) + Flatten(b)
  {
    if a == [] {
      assert a + b == b;
    } else {
      assert (a + b)[1..] == a[1..] + b;
      FlattenAppend(a[1..], b);
      assert ([a[0]] + a[1..] + b)[0] == a[0];
    }
  }

  // ----- Which messages a ring keeps -----

  /** The oldest messages are discarded until a message of n bytes leaves at least one byte free
      (lib/log.c:1016-1019). */
  function DropUntilFits(ms: seq<Message>, n: nat, size: nat): (r: seq<Message>)
    ensures n < size ==> Total(r) + n < size
  {
    if ms == [] || Total(ms) + n < size then ms else DropUntilFits(ms[1..], n, size)
  }

  /** The oldest messages that have to go for n more bytes. */
  function DroppedFor(ms: seq<Message>, n: nat, size: nat): seq<Message>
  {
    if ms == [] || Total(ms) + n < size then [] else [ms[0]] + DroppedFor(ms[1..], n, size)
  }

  lemma HeadSplit<T>(s: seq<T>, a: seq<T>, b: seq<T>)
    requires s != [] && s[1..] == a + b
    ensures s == [s[0]] + a + b
  {
    assert s == [s[0]] + s[1..];
  }

  lemma {:induction false} DropSplit(ms: seq<Message>, n: nat, size: nat)
    ensures ms == DroppedFor(ms, n, size) + DropUntilFits(ms, n, size)
  {
    if ms == [] || Total(ms) + n < size {
    } else {
      DropSplit(ms[1..], n, size);
      HeadSplit(ms, DroppedFor(ms[1..], n, size), DropUntilFits(ms[1..], n, size));
    }
  }

  /** Index where the longest suffix of h that is strictly shorter than size begins. */
  function KeepFrom(h: seq<Message>, size: nat): (k: nat)
    requires size > 0
    ensures k <= |h|
  {
    if Total(h) < size then 0 else 1 + KeepFrom(h[1..], size)
  }

  lemma {:induction false} TotalSuffix(h: seq<Message>, i: nat, j: nat)
    requires i <= j <= |h|
    ensures Total(h[j..]) <= Total(h[i..])
    ensures i < j ==> Total(h[j..]) < Total(h[i..])
  {
    assert h[i..] == h[i..j] + h[j..];
    TotalAppend(h[i..j], h[j..]);
  }

  /** KeepFrom is what its description says: that suffix fits, and no longer one does. */
  lemma {:induction false} KeepFromIsLongestSuffix(h: seq<Message>, size: nat, k: nat)
    requires size > 0 && k <= |h|
    ensures Total(h[k..]) < size <==> KeepFrom(h, size) <= k
  {
    if Total(h) < size {
      TotalSuffix(h, 0, k);
      assert h[0..] == h;
    } else if k > 0 {
      assert h[1..][k - 1..] == h[k..];
      KeepFromIsLongestSuffix(h[1..], size, k - 1);
    } else {
      assert h[0..] == h;
    }
  }

  /** Discarding from the suffix at p leaves the suffix at the first index, from p on, that fits. */
  lemma {:induction false} DropFromSuffix(h: seq<Message>, p: nat, m: Message, size: nat)
    requires p <= |h| && |m| < size
    ensures var k := KeepFrom(h + [m], size);
            var q := if k <= p then p else k;
            q <= |h| && DropUntilFits(h[p..], |m|, size) + [m] == (h + [m])[q..]
    decreases |h| - p
  {
    var h' := h + [m];
    assert h'[p..] == h[p..] + [m];
    TotalAppend(h[p..], [m]);
    KeepFromIsLongestSuffix(h', size, p);
    assert h'[|h|..] == [m];
    KeepFromIsLongestSuffix(h', size, |h|);
    if h[p..] != [] && Total(h[p..]) + |m| >= size {
      assert h[p..][1..] == h[p + 1..];
      DropFromSuffix(h, p + 1, m, size);
    }
  }

  // ----- Whole runs of one ring -----

  datatype RingOp = Put(m: Message) | Get | Clear

  /** The abstract ring: its contents, with the messages put since the last clear and how many
      of those lie before or at the last one got. */
  datatype Fifo = Fifo(content: seq<Message>, since: seq<Message>, taken: int, got: seq<Message>)

  function FifoStep(s: Fifo, op: RingOp, size: nat): (t: Fifo)
  {
    match op
    case Put(m) => s.(content := DropUntilFits(s.content, |m|, size) + [m], since := s.since + [m])
    case Get =>
      if s.content == [] then s
      else s.(content := s.content[1..], taken := |s.since| - |s.content| + 1, got := s.got + [s.content[0]])
    case Clear => s.(content := [], since := [], taken := 0)
  }

  function FifoRun(ops: seq<RingOp>, size: nat): (t: Fifo)
  {
    if ops == [] then Fifo([], [], 0, [])
    else FifoStep(FifoRun(ops[..|ops| - 1], size), ops[|ops| - 1], size)
  }

  predicate Exact(s: Fifo, size: nat)
    requires size > 0
  {
    && 0 <= s.taken <= |s.since|
    && s.content == s.since[Max(s.taken, KeepFrom(s.since, size))..]
  }

  function Max(a: nat, b: nat): nat { if a < b then b else a }

  lemma {:induction false} KeepFromGrows(h: seq<Message>, m: Message, size: nat)
    requires |m| < size
    ensures KeepFrom(h, size) <= KeepFrom(h + [m], size) <= |h|
  {
    var k := KeepFrom(h + [m], size);
    assert (h + [m])[|h|..] == [m];
    assert Total([m]) == |m|;
    KeepFromIsLongestSuffix(h + [m], size, |h|);
    KeepFromIsLongestSuffix(h + [m], size, k);
    assert (h + [m])[k..] == h[k..] + [m];
    TotalAppend(h[k..], [m]);
    KeepFromIsLongestSuffix(h, size, k);
  }

  lemma {:induction false} ExactStep(s: Fifo, op: RingOp, size: nat)
    requires size >= MIN_RING_SIZE && Exact(s, size)
    ensures Exact(FifoStep(s, op, size), size)
  {
    match op
    case Put(m) =>
      DropFromSuffix(s.since, Max(s.taken, KeepFrom(s.since, size)), m, size);
      KeepFromGrows(s.since, m, size);
    case Get =>
      if s.content != [] {
        var p := Max(s.taken, KeepFrom(s.since, size));
        assert s.since[p..][1..] == s.since[p + 1..];
      }
    case Clear =>
  }

  /** For every run of puts, gets and clears, the ring holds exactly the messages put since the last clear
      from an index on: the later of "after the last message got" and "start of the longest suffix
      strictly shorter than the ring". */
  lemma {:induction false} RunIsExact(ops: seq<RingOp>, size: nat)
    requires size >= MIN_RING_SIZE
    ensures Exact(FifoRun(ops, size), size)
  {
    if ops == [] {
    } else {
      RunIsExact(ops[..|ops| - 1], size);
      ExactStep(FifoRun(ops[..|ops| - 1], size), ops[|ops| - 1], size);
    }
  }

  /** With no get since the last clear the ring holds the longest suffix of everything put since,
      whose total length is strictly below the ring size: it fits, and no longer suffix does. */
  lemma RunWithoutGets(ops: seq<RingOp>, size: nat, k: nat)
    requires size >= MIN_RING_SIZE
    requires FifoRun(ops, size).taken == 0
    requires k <= |FifoRun(ops, size).since|
    ensures var s := FifoRun(ops, size);
            && |s.content| <= |s.since|
            && s.content == s.since[|s.since| - |s.content|..]
            && Total(s.content) < size
            && (Total(s.since[k..]) < size <==> |s.since| - k <= |s.content|)
  {
    RunIsExact(ops, size);
    var s := FifoRun(ops, size);
    var j := KeepFrom(s.since, size);
    KeepFromIsLongestSuffix(s.since, size, j);
    KeepFromIsLongestSuffix(s.since, size, k);
  }
}
