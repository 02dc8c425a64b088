/** The lines of the system file configuration (lib/utility.c:103-129, 259-302). */
module SysFileLines {

  predicate Whitespace(c: char) { c == ' ' || c == '\t' || c == '\n' }

  datatype Line = Blank | Malformed | Setting(key: string, val: string)

  predicate AllSpace(s: string) { forall i :: 0 <= i < |s| ==> Whitespace(s[i]) }

  /** A key has no '=' or white space in it and does not begin a comment. */
  predicate KeyLike(k: string)
  {
    (forall i :: 0 <= i < |k| ==> k[i] != '=' && !Whitespace(k[i])) && (k != "" ==> k[0] != '#')
  }

  /** An absolute path, without white space at its end. */
  predicate PathLike(v: string) { v != "" && v[0] == '/' && !Whitespace(v[|v| - 1]) }

  // ----- Reading a line -----

  function TrimRight(s: string): string
  {
    if s != "" && Whitespace(s[|s| - 1]) then TrimRight(s[..|s| - 1]) else s
  }

  function SkipSpace(s: string): string
  {
    if s != "" && Whitespace(s[0]) then SkipSpace(s[1..]) else s
  }

  function KeyLength(s: string): (n: nat)
    ensures n <= |s|
  {
    if s == "" || s[0] == '=' || Whitespace(s[0]) then 0 else 1 + KeyLength(s[1..])
  }

  function ParseValue(key: string, s: string): Line
  {
    var v := SkipSpace(s);
    if v == "" || v[0] != '/' then Malformed else Setting(key, v)
  }

  function ParseAfterKey(key: string, s: string): Line
  {
    var t := SkipSpace(s);
    if t == "" || t[0] != '=' then Malformed else ParseValue(key, t[1..])
  }

  function ParseTrimmed(s: string): Line
  {
    if s == "" || s[0] == '#' then Blank else ParseAfterKey(s[..KeyLength(s)], s[KeyLength(s)..])
  }

  function Parse(line: string): Line { ParseTrimmed(SkipSpace(TrimRight(line))) }

  /** The line is the setting with any white space around its parts. */
  predicate Spells(line: string, k: string, v: string, w: seq<string>)
  {
    && |w| == 4 && AllSpace(w[0]) && AllSpace(w[1]) && AllSpace(w[2]) && AllSpace(w[3])
    && line == w[0] + k + w[1] + "=" + w[2] + v + w[3]
    && KeyLike(k) && PathLike(v)
  }

  // ----- A line is read as a setting exactly when it spells it -----

  lemma {:induction false} TrimRightSplit(s: string) returns (w: string)
    ensures s == TrimRight(s) + w && AllSpace(w)
  {
    w := "";
    if s != "" && Whitespace(s[|s| - 1]) {
      var w' := TrimRightSplit(s[..|s| - 1]);
      w := w' + [s[|s| - 1]];
      assert s == s[..|s| - 1] + [s[|s| - 1]];
    }
  }

  lemma {:induction false} TrimRightEnd(s: string)
    requires TrimRight(s) != ""
    ensures !Whitespace(TrimRight(s)[|TrimRight(s)| - 1])
  {
    if Whitespace(s[|s| - 1]) {
      TrimRightEnd(s[..|s| - 1]);
    }
  }

  lemma {:induction false} SkipSpaceSplit(s: string) returns (w: string)
    ensures s == w + SkipSpace(s) && AllSpace(w)
  {
    w := "";
    if s != "" && Whitespace(s[0]) {
      var w' := SkipSpaceSplit(s[1..]);
      w := [s[0]] + w';
      assert s == [s[0]] + s[1..];
    }
  }

  lemma {:induction false} KeyOf(s: string)
    ensures forall i :: 0 <= i < KeyLength(s) ==> s[i] != '=' && !Whitespace(s[i])
  {
    if s != "" && s[0] != '=' && !Whitespace(s[0]) {
      KeyOf(s[1..]);
      forall i | 0 <= i < KeyLength(s)
        ensures s[i] != '=' && !Whitespace(s[i])
      {
        if i > 0 {
          assert s[i] == s[1..][i - 1];
        }
      }
    }
  }

  lemma {:induction false} TrimRightOf(s: string, w: string)
    requires s != "" && !Whitespace(s[|s| - 1]) && AllSpace(w)
    ensures TrimRight(s + w) == s
  {
    if w == "" {
      assert s + w == s;
    } else {
      assert (s + w)[..|s + w| - 1] == s + w[..|w| - 1];
      TrimRightOf(s, w[..|w| - 1]);
    }
  }

  lemma {:induction false} SkipSpaceOf(w: string, s: string)
    requires AllSpace(w)
    ensures SkipSpace(w + s) == SkipSpace(s)
  {
    if w == "" {
      assert w + s == s;
    } else {
      assert (w + s)[1..] == w[1..] + s;
      SkipSpaceOf(w[1..], s);
    }
  }

  lemma {:induction false} KeyLengthOf(k: string, s: string)
    requires forall i :: 0 <= i < |k| ==> k[i] != '=' && !Whitespace(k[i])
    requires s != "" && (s[0] == '=' || Whitespace(s[0]))
    ensures KeyLength(k + s) == |k|
  {
    if k == "" {
      assert k + s == s;
    } else {
      assert (k + s)[1..] == k[1..] + s;
      KeyLengthOf(k[1..], s);
    }
  }

  lemma AfterKeySpelled(k: string, v: string, w1: string, w2: string)
    requires AllSpace(w1) && AllSpace(w2) && PathLike(v)
    ensures ParseAfterKey(k, w1 + ("=" + (w2 + v))) == Setting(k, v)
  {
    var u := "=" + (w2 + v);
    SkipSpaceOf(w1, u);
    assert u[1..] == w2 + v;
    SkipSpaceOf(w2, v);
  }

  lemma TrimmedSpelled(k: string, v: string, w1: string, w2: string)
    requires AllSpace(w1) && AllSpace(w2) && KeyLike(k) && PathLike(v)
    ensures ParseTrimmed(SkipSpace(k + (w1 + ("=" + (w2 + v))))) == Setting(k, v)
  {
    var u := "=" + (w2 + v);
    if k == "" {
      assert k + (w1 + u) == w1 + u;
      SkipSpaceOf(w1, u);
      AfterKeySpelled(k, v, "", w2);
      assert "" + u == u && u[..0] == k && u[0..] == u;
    } else {
      var s := k + (w1 + u);
      KeyLengthOf(k, w1 + u);
      assert s[|k|..] == w1 + u && s[..|k|] == k;
      AfterKeySpelled(k, v, w1, w2);
    }
  }

  lemma Reassociate(w0: string, k: string, w1: string, w2: string, v: string, w3: string)
    ensures w0 + k + w1 + "=" + w2 + v + w3 == w0 + (k + (w1 + ("=" + (w2 + v)))) + w3
  {
    assert w0 + k + w1 + "=" + w2 + v == w0 + (k + (w1 + ("=" + (w2 + v))));
  }

  lemma ParseSpelled(line: string, k: string, v: string, w: seq<string>)
    requires Spells(line, k, v, w)
    ensures Parse(line) == Setting(k, v)
  {
    Reassociate(w[0], k, w[1], w[2], v, w[3]);
    var rest := k + (w[1] + ("=" + (w[2] + v)));
    EndsIn(w[0] + (k + (w[1] + "=") + w[2]), v);
    assert w[0] + rest == w[0] + (k + (w[1] + "=") + w[2]) + v;
    TrimRightOf(w[0] + rest, w[3]);
    SkipSpaceOf(w[0], rest);
    TrimmedSpelled(k, v, w[1], w[2]);
  }

  lemma EndsIn(u: string, v: string)
    requires v != ""
    ensures u + v != "" && (u + v)[|u + v| - 1] == v[|v| - 1]
  {
  }

  lemma SpellAfterKey(k: string, s: string) returns (w1: string, w2: string)
    requires ParseAfterKey(k, s).Setting?
    ensures var v := ParseAfterKey(k, s).val;
            AllSpace(w1) && AllSpace(w2) && s == w1 + ("=" + (w2 + v)) && v != "" && v[0] == '/'
    ensures ParseAfterKey(k, s).key == k
  {
    var t := SkipSpace(s);
    w1 := SkipSpaceSplit(s);
    w2 := SkipSpaceSplit(t[1..]);
    assert t == "=" + t[1..];
  }

  /** The line without the white space around it. */
  lemma SpellTrimmed(s: string) returns (k: string, w1: string, w2: string, v: string)
    requires ParseTrimmed(s).Setting?
    ensures ParseTrimmed(s) == Setting(k, v) && s == k + (w1 + ("=" + (w2 + v)))
    ensures AllSpace(w1) && AllSpace(w2) && KeyLike(k) && v != "" && v[0] == '/'
  {
    var rest := s[KeyLength(s)..];
    k := s[..KeyLength(s)];
    assert s == k + rest;
    KeyOf(s);
    w1, w2 := SpellAfterKey(k, rest);
    v := ParseTrimmed(s).val;
  }

  lemma Assembled(line: string, k: string, v: string, w0: string, w1: string, w2: string, w3: string, x: string)
    requires line == x + w3 && x == w0 + (k + (w1 + ("=" + (w2 + v))))
    requires AllSpace(w0) && AllSpace(w1) && AllSpace(w2) && AllSpace(w3) && KeyLike(k)
    requires v != "" && v[0] == '/' && (x != "" ==> !Whitespace(x[|x| - 1]))
    ensures Spells(line, k, v, [w0, w1, w2, w3])
  {
    PathEnds(x, w0, k, w1, w2, v);
    Reassociate(w0, k, w1, w2, v, w3);
  }

  lemma SpellParsed(line: string) returns (w: seq<string>)
    requires Parse(line).Setting?
    ensures Spells(line, Parse(line).key, Parse(line).val, w)
  {
    var x := TrimRight(line);
    var w3 := TrimRightSplit(line);
    var w0 := SkipSpaceSplit(x);
    if x != "" {
      TrimRightEnd(line);
    }
    var k, w1, w2, v := SpellTrimmed(SkipSpace(x));
    Assembled(line, k, v, w0, w1, w2, w3, x);
    w := [w0, w1, w2, w3];
  }

  lemma PathEnds(x: string, w0: string, k: string, w1: string, w2: string, v: string)
    requires x == w0 + (k + (w1 + ("=" + (w2 + v)))) && v != ""
    ensures x != "" && x[|x| - 1] == v[|v| - 1]
  {
    assert x == w0 + (k + (w1 + "=") + w2) + v;
    EndsIn(w0 + (k + (w1 + "=") + w2), v);
  }

  /** A line is read as a setting exactly when it spells that setting. */
  lemma ParseIff(line: string, k: string, v: string)
    ensures Parse(line) == Setting(k, v) <==> exists w :: Spells(line, k, v, w)
  {
    if Parse(line) == Setting(k, v) {
      var w := SpellParsed(line);
    }
    forall w | Spells(line, k, v, w)
      ensures Parse(line) == Setting(k, v)
    {
      ParseSpelled(line, k, v, w);
    }
  }

  // ----- Lines that say nothing, and malformed lines -----

  lemma {:induction false} SkipSpaceBlank(s: string)
    ensures SkipSpace(s) == "" <==> forall i :: 0 <= i < |s| ==> Whitespace(s[i])
    ensures SkipSpace(s) != "" ==> !Whitespace(SkipSpace(s)[0])
  {
    if s != "" && Whitespace(s[0]) {
      SkipSpaceBlank(s[1..]);
      assert forall i :: 0 <= i < |s[1..]| ==> s[1..][i] == s[i + 1];
      assert (forall i :: 0 <= i < |s| ==> Whitespace(s[i])) ==>
               forall i :: 0 <= i < |s[1..]| ==> Whitespace(s[1..][i]);
    }
  }

  predicate BlankUpTo(line: string, i: nat)
    requires i <= |line|
  {
    forall k :: 0 <= k < i ==> line[k] in {' ', '\t', '\n'}
  }

  /** A line is skipped exactly when it is empty or a comment: nothing but white space up to its end or a '#'. */
  lemma BlankIff(line: string)
    ensures Parse(line).Blank? <==>
            exists i: nat :: i <= |line| && BlankUpTo(line, i) && (i == |line| || line[i] == '#')
  {
    var x := TrimRight(line);
    var s := SkipSpace(x);
    var w := TrimRightSplit(line);
    var v := SkipSpaceSplit(x);
    NeverBlankAfterKey(s[..KeyLength(s)], s[KeyLength(s)..]);
    assert line == v + s + w;
    var n := |v|;
    SkipSpaceBlank(x);
    assert forall k :: 0 <= k < n ==> line[k] == v[k];
    assert BlankUpTo(line, n);
    if s == "" {
      assert v + s == v;
      assert forall k :: n <= k < |line| ==> line[k] == w[k - n];
      assert BlankUpTo(line, |line|);
    } else {
      assert line[n] == s[0] && !Whitespace(s[0]);
      if i: nat :| i <= |line| && BlankUpTo(line, i) && (i == |line| || line[i] == '#') {
        OnlyPlace(line, n, i);
      }
    }
  }

  lemma OnlyPlace(line: string, n: nat, i: nat)
    requires n < |line| && BlankUpTo(line, n) && !Whitespace(line[n])
    requires i <= |line| && BlankUpTo(line, i) && (i == |line| || line[i] == '#')
    ensures i == n && line[n] == '#'
  {
    forall k | 0 <= k < n
      ensures line[k] != '#'
    {
      assert line[k] in {' ', '\t', '\n'};
    }
    forall k | 0 <= k < i
      ensures Whitespace(line[k])
    {
      assert line[k] in {' ', '\t', '\n'};
    }
  }

  lemma NeverBlankAfterKey(key: string, s: string)
    ensures !ParseAfterKey(key, s).Blank?
  {
  }

  /** Every other line that does not spell a setting is malformed. */
  lemma MalformedIff(line: string)
    ensures Parse(line).Malformed? <==>
            && !(exists i: nat :: i <= |line| && BlankUpTo(line, i) && (i == |line| || line[i] == '#'))
            && !(exists k, v, w :: Spells(line, k, v, w))
  {
    BlankIff(line);
    forall k, v, w | Spells(line, k, v, w)
      ensures Parse(line) == Setting(k, v)
    {
      ParseSpelled(line, k, v, w);
    }
    if Parse(line).Setting? {
      var w := SpellParsed(line);
    }
  }

  // ----- The scans -----

  method SkipSpaceAt(s: string, i: nat) returns (p: nat)
    requires i <= |s|
    ensures i <= p <= |s| && s[p..] == SkipSpace(s[i..])
  {
    p := i;
    while p < |s| && Whitespace(s[p])
      invariant i <= p <= |s| && SkipSpace(s[p..]) == SkipSpace(s[i..])
    {
      assert s[p..][1..] == s[p + 1..];
      p := p + 1;
    }
  }

  method TrimmedEnd(line: string) returns (end: nat)
    ensures end <= |line| && line[..end] == TrimRight(line)
  {
    end := |line|;
    assert line[..end] == line;
    while end > 0 && Whitespace(line[end - 1])
      invariant end <= |line| && TrimRight(line[..end]) == TrimRight(line)
    {
      assert line[..end][..end - 1] == line[..end - 1];
      end := end - 1;
    }
  }

  method KeyEndAt(s: string, i: nat) returns (p: nat)
    requires i <= |s|
    ensures p == i + KeyLength(s[i..]) <= |s|
  {
    p := i;
    while p < |s| && s[p] != '=' && !Whitespace(s[p])
      invariant i <= p <= |s| && KeyLength(s[i..]) == p - i + KeyLength(s[p..])
    {
      assert s[p..][1..] == s[p + 1..];
      p := p + 1;
    }
  }

  /** The rest of the line behind the key. */
  method ParseRest(buf: string, key: string, at: nat) returns (r: Line)
    requires at <= |buf|
    ensures r == ParseAfterKey(key, buf[at..])
  {
    var p := SkipSpaceAt(buf, at);
    if p == |buf| || buf[p] != '=' {
      return Malformed;
    }
    assert buf[p..][1..] == buf[p + 1..];
    p := SkipSpaceAt(buf, p + 1);
    if p == |buf| || buf[p] != '/' {
      return Malformed;
    }
    r := Setting(key, buf[p..]);
  }

  /** The buffer is cut at its end and scanned by a moving pointer. */
  method ParseLine(line: string) returns (r: Line)
    ensures r == Parse(line)
  {
    var end := TrimmedEnd(line);
    var buf := line[..end];
    var key := SkipSpaceAt(buf, 0);
    assert buf[0..] == buf;
    if key == |buf| || buf[key] == '#' {
      return Blank;
    }
    var p := KeyEndAt(buf, key);
    ghost var s := buf[key..];
    assert s[..p - key] == buf[key..p] && s[p - key..] == buf[p..];
    r := ParseRest(buf, buf[key..p], p);
  }
}
