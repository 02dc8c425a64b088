/** Comparing the conversion specifiers of two path formats (lib/utility.c:131-170). */
module FormatMatch {

  /** The characters that end a conversion specifier in the path names. */
  predicate Terminator(c: char) { c == 'd' || c == 'u' || c == 'x' || c == 'f' || c == 's' }

  /** The string from its first '%' on. */
  function FromPercent(s: string): (t: string)
    ensures |t| <= |s| && (t == "" || t[0] == '%')
  {
    if s == "" || s[0] == '%' then s else FromPercent(s[1..])
  }

  /** The length of the specifier that t begins with: up to its terminator, or all of t. */
  function SpecLength(t: string): (n: nat)
    ensures n <= |t| && (t != "" ==> n > 0)
  {
    if t == "" then 0 else if Terminator(t[0]) then 1 else 1 + SpecLength(t[1..])
  }

  /** The conversion specifiers of a format, in order. */
  function Specs(s: string): seq<string>
    decreases |s|
  {
    var t := FromPercent(s);
    if t == "" then [] else [t[..SpecLength(t)]] + Specs(t[SpecLength(t)..])
  }

  lemma SpecsSkip(s: string, i: nat, j: nat)
    requires i <= j <= |s| && (forall k :: i <= k < j ==> s[k] != '%')
    ensures Specs(s[i..]) == Specs(s[j..])
    decreases j - i
  {
    if i < j {
      assert s[i..][1..] == s[i + 1..];
      assert FromPercent(s[i..]) == FromPercent(s[i + 1..]);
      SpecsSkip(s, i + 1, j);
    }
  }

  lemma {:induction false} SpecLengthAtLeast(t: string, k: nat)
    requires k <= |t| && (forall i :: 0 <= i < k ==> !Terminator(t[i]))
    ensures SpecLength(t) >= k && (k < |t| ==> SpecLength(t) > k)
    ensures k < |t| && Terminator(t[k]) ==> SpecLength(t) == k + 1
    ensures k == |t| ==> SpecLength(t) == k
  {
    if k > 0 {
      SpecLengthAtLeast(t[1..], k - 1);
    }
  }

  lemma FirstSpec(t: string)
    requires t != "" && t[0] == '%'
    ensures Specs(t) == [t[..SpecLength(t)]] + Specs(t[SpecLength(t)..])
    ensures Specs(t) != [] && Specs(t)[0] == t[..SpecLength(t)] && Specs(t)[1..] == Specs(t[SpecLength(t)..])
  {
  }

  predicate Plain(s: string) { '%' !in s }

  predicate Unended(s: string) { forall i :: 0 <= i < |s| ==> s[i] !in {'d', 'u', 'x', 'f', 's'} }

  lemma {:induction false} PlainPrefix(a: string, s: string)
    requires Plain(a)
    ensures FromPercent(a + s) == FromPercent(s)
  {
    if a == "" {
      assert a + s == s;
    } else {
      assert (a + s)[1..] == a[1..] + s;
      PlainPrefix(a[1..], s);
    }
  }

  /** Three equations that any format meets one of: it has no '%', or a '%' and nothing that ends a specifier behind
      it, or a first specifier from its '%' to the first d, u, x, f or s behind that. */
  lemma SpecsEquations(a: string, b: string, c: char, rest: string)
    requires Plain(a) && Unended(b) && c in {'d', 'u', 'x', 'f', 's'}
    ensures Specs(a) == []
    ensures Specs(a + ("%" + b)) == ["%" + b]
    ensures Specs(a + ("%" + b + [c] + rest)) == ["%" + b + [c]] + Specs(rest)
  {
    PlainPrefix(a, "");
    assert a + "" == a;
    LastSpec(a, b);
    OneSpec(a, b, c, rest);
  }

  lemma LastSpec(a: string, b: string)
    requires Plain(a) && Unended(b)
    ensures Specs(a + ("%" + b)) == ["%" + b]
  {
    var t := "%" + b;
    PlainPrefix(a, t);
    SpecLengthAtLeast(t, |t|);
    assert t[..|t|] == t && t[|t|..] == "";
  }

  lemma OneSpec(a: string, b: string, c: char, rest: string)
    requires Plain(a) && Unended(b) && c in {'d', 'u', 'x', 'f', 's'}
    ensures Specs(a + ("%" + b + [c] + rest)) == ["%" + b + [c]] + Specs(rest)
  {
    var head := "%" + b + [c];
    var t := head + rest;
    PlainPrefix(a, t);
    assert forall i :: 0 <= i < |head| - 1 ==> t[i] == ("%" + b)[i];
    SpecLengthAtLeast(t, |head| - 1);
    assert t[..|head|] == head && t[|head|..] == rest;
  }

  // ----- What one round of the comparison finds -----

  /** Neither specifier has ended, and they agree so far. */
  predicate AgreeTo(a: string, b: string, k: nat)
  {
    k <= |a| && k <= |b| && a[..k] == b[..k] && forall i :: 0 <= i < k ==> !Terminator(a[i])
  }

  lemma Mismatch(a: string, b: string, k: nat)
    requires a != "" && a[0] == '%' && b != "" && b[0] == '%' && AgreeTo(a, b, k)
    requires k < |a| && k < |b| && a[k] != b[k]
    ensures Specs(a) != Specs(b)
  {
    BothUnfinished(a, b, k);
    var u, v := a[..SpecLength(a)], b[..SpecLength(b)];
    assert u[k] != v[k];
  }

  lemma BothUnfinished(a: string, b: string, k: nat)
    requires a != "" && a[0] == '%' && b != "" && b[0] == '%' && AgreeTo(a, b, k)
    ensures SpecLength(a) >= k && SpecLength(b) >= k
    ensures k < |a| ==> SpecLength(a) > k
    ensures k < |b| ==> SpecLength(b) > k
    ensures Specs(a) != [] && Specs(a)[0] == a[..SpecLength(a)]
    ensures Specs(b) != [] && Specs(b)[0] == b[..SpecLength(b)]
  {
    forall i | 0 <= i < k
      ensures !Terminator(b[i])
    {
      assert a[..k][i] == b[..k][i];
    }
    SpecLengthAtLeast(a, k);
    SpecLengthAtLeast(b, k);
    FirstSpec(a);
    FirstSpec(b);
  }

  lemma Terminated(a: string, b: string, k: nat)
    requires a != "" && a[0] == '%' && b != "" && b[0] == '%' && AgreeTo(a, b, k)
    requires k < |a| && k < |b| && a[k] == b[k] && Terminator(a[k])
    ensures Specs(a) == Specs(b) <==> Specs(a[k..]) == Specs(b[k..])
  {
    forall i | 0 <= i < k
      ensures !Terminator(b[i])
    {
      assert a[..k][i] == b[..k][i];
    }
    SpecLengthAtLeast(a, k);
    SpecLengthAtLeast(b, k);
    SpecEnds(a, k);
    SpecEnds(b, k);
    assert a[..k + 1] == a[..k] + [a[k]] && b[..k + 1] == b[..k] + [b[k]];
    SameHead(a[..k + 1], Specs(a[k..]), b[..k + 1], Specs(b[k..]));
  }

  lemma SameHead(a: string, s: seq<string>, b: string, t: seq<string>)
    requires a == b
    ensures [a] + s == [b] + t <==> s == t
  {
    assert ([a] + s)[1..] == s && ([b] + t)[1..] == t;
  }

  lemma SkipOne(t: string, k: nat)
    requires k < |t| && t[k] != '%'
    ensures Specs(t[k..]) == Specs(t[k + 1..])
  {
    assert t[k..][1..] == t[k + 1..];
    assert FromPercent(t[k..]) == FromPercent(t[k + 1..]);
  }

  /** The specifier ends with a terminator, which begins no other. */
  lemma SpecEnds(t: string, k: nat)
    requires t != "" && t[0] == '%' && k < |t| && t[k] != '%' && SpecLength(t) == k + 1
    ensures Specs(t) == [t[..k + 1]] + Specs(t[k..])
  {
    SkipOne(t, k);
  }

  lemma Exhausted(a: string, b: string, k: nat)
    requires a != "" && a[0] == '%' && b != "" && b[0] == '%' && AgreeTo(a, b, k)
    requires k == |a| || k == |b|
    ensures Specs(a) == Specs(b) <==> k == |a| && k == |b|
  {
    BothUnfinished(a, b, k);
    if k == |a| && k == |b| {
      assert a == a[..k] && b == b[..k];
    } else {
      assert |a[..SpecLength(a)]| != |b[..SpecLength(b)]|;
    }
  }

  // ----- The matcher -----

  /** What remains of the question after the first i and j characters. */
  ghost predicate Open(ref: string, str: string, i: nat, j: nat, answer: bool)
  {
    && i <= |ref| && j <= |str|
    && (answer <==> Specs(ref[i..]) == Specs(str[j..]) && (i == |ref| <==> j == |str|))
  }

  lemma SkippedBoth(ref: string, str: string, i: nat, j: nat, i': nat, j': nat, answer: bool)
    requires Open(ref, str, i, j, answer) && i < |ref| && j < |str|
    requires i <= i' <= |ref| && j <= j' <= |str|
    requires forall k :: i <= k < i' ==> ref[k] != '%'
    requires forall k :: j <= k < j' ==> str[k] != '%'
    requires (i' == |ref| || ref[i'] == '%') && (j' == |str| || str[j'] == '%')
    ensures Open(ref, str, i', j', answer)
    ensures answer <==> Specs(ref[i'..]) == Specs(str[j'..])
  {
    SpecsSkip(ref, i, i');
    SpecsSkip(str, j, j');
    if i' < |ref| {
      FirstSpec(ref[i'..]);
    }
    if j' < |str| {
      FirstSpec(str[j'..]);
    }
  }

  method SkipToPercent(s: string, i: nat) returns (j: nat)
    requires i <= |s|
    ensures i <= j <= |s| && (j == |s| || s[j] == '%')
    ensures forall k :: i <= k < j ==> s[k] != '%'
  {
    j := i;
    while j < |s| && s[j] != '%'
      invariant i <= j <= |s| && (forall k :: i <= k < j ==> s[k] != '%')
    {
      j := j + 1;
    }
  }

  /** What one round leaves open, k characters into two specifiers. */
  lemma RoundOver(ref: string, str: string, i: nat, j: nat, k: nat, answer: bool)
    requires i < |ref| && j < |str| && ref[i] == '%' && str[j] == '%' && AgreeTo(ref[i..], str[j..], k)
    requires answer <==> Specs(ref[i..]) == Specs(str[j..])
    ensures i + k < |ref| && j + k < |str| && ref[i + k] != str[j + k] ==> !answer
    ensures i + k < |ref| && j + k < |str| && ref[i + k] == str[j + k] && Terminator(ref[i + k]) ==>
              Open(ref, str, i + k, j + k, answer)
    ensures i + k == |ref| || j + k == |str| ==> Open(ref, str, i + k, j + k, answer)
  {
    var a, b := ref[i..], str[j..];
    if i + k == |ref| || j + k == |str| {
      Exhausted(a, b, k);
      assert ref[|ref|..] == "" && str[|str|..] == "";
    } else if ref[i + k] != str[j + k] {
      Mismatch(a, b, k);
    } else if Terminator(ref[i + k]) {
      Terminated(a, b, k);
      assert a[k..] == ref[i + k..] && b[k..] == str[j + k..];
    }
  }

  lemma AgreeOneMore(a: string, b: string, k: nat)
    requires AgreeTo(a, b, k) && k < |a| && k < |b| && a[k] == b[k] && !Terminator(a[k])
    ensures AgreeTo(a, b, k + 1)
  {
    assert a[..k + 1] == a[..k] + [a[k]] && b[..k + 1] == b[..k] + [b[k]];
  }

  /** Compares two specifiers, or nothing if either string has ended.  Stops on a terminator. */
  method CompareSpec(ref: string, str: string, i: nat, j: nat, ghost answer: bool) returns (ok: bool, i': nat, j': nat)
    requires Open(ref, str, i, j, answer) && (answer <==> Specs(ref[i..]) == Specs(str[j..]))
    requires (i == |ref| || ref[i] == '%') && (j == |str| || str[j] == '%')
    ensures !ok ==> !answer
    ensures ok ==> Open(ref, str, i', j', answer) && i <= i' && j <= j'
    ensures ok && i < |ref| && j < |str| ==> i < i' && j < j'
  {
    i', j', ok := i, j, true;
    if i == |ref| || j == |str| {
      return;
    }
    var k := 0;
    while i + k < |ref| && j + k < |str|
      invariant AgreeTo(ref[i..], str[j..], k)
    {
      if ref[i + k] != str[j + k] {
        RoundOver(ref, str, i, j, k, answer);
        return false, i + k, j + k;
      }
      if Terminator(ref[i + k]) {
        RoundOver(ref, str, i, j, k, answer);
        return true, i + k, j + k;
      }
      AgreeOneMore(ref[i..], str[j..], k);
      k := k + 1;
    }
    RoundOver(ref, str, i, j, k, answer);
    i', j' := i + k, j + k;
  }

  /** _fmtmatch terminates on all strings and is true exactly when both have the same specifiers and neither
      or both are empty. */
  method Fmtmatch(ref: string, str: string) returns (r: bool)
    ensures r <==> Specs(ref) == Specs(str) && (ref == "" <==> str == "")
  {
    ghost var answer := Specs(ref) == Specs(str) && (ref == "" <==> str == "");
    var i: nat, j: nat := 0, 0;
    assert ref[0..] == ref && str[0..] == str;
    while i < |ref| && j < |str|
      invariant Open(ref, str, i, j, answer)
      decreases |ref| - i + |str| - j
    {
      var i1 := SkipToPercent(ref, i);
      var j1 := SkipToPercent(str, j);
      SkippedBoth(ref, str, i, j, i1, j1, answer);
      var ok, i2, j2 := CompareSpec(ref, str, i1, j1, answer);
      if !ok {
        return false;
      }
      i, j := i2, j2;
    }
    r := i == |ref| && j == |str|;
  }

  // ----- Putting a directory before a format -----

  /** The characters that belong to specifiers, scanning from inside or outside of one. */
  function InSpecs(s: string, inside: bool): nat
  {
    if s == "" then 0
    else if inside then 1 + InSpecs(s[1..], !Terminator(s[0]))
    else if s[0] == '%' then 1 + InSpecs(s[1..], true)
    else InSpecs(s[1..], false)
  }

  function TotalLength(specs: seq<string>): nat { if specs == [] then 0 else |specs[0]| + TotalLength(specs[1..]) }

  lemma {:induction false} InsideFirst(t: string)
    ensures InSpecs(t, true) == SpecLength(t) + InSpecs(t[SpecLength(t)..], false)
  {
    if t != "" {
      if Terminator(t[0]) {
      } else {
        InsideFirst(t[1..]);
        assert t[SpecLength(t)..] == t[1..][SpecLength(t[1..])..];
      }
    }
  }

  lemma {:induction false} OutsideSkips(s: string)
    ensures InSpecs(s, false) == InSpecs(FromPercent(s), true)
  {
    if s != "" {
      if s[0] != '%' {
        OutsideSkips(s[1..]);
      }
    }
  }

  lemma {:induction false} SpecsTotal(s: string)
    ensures TotalLength(Specs(s)) == InSpecs(s, false)
    decreases |s|
  {
    var t := FromPercent(s);
    OutsideSkips(s);
    InsideFirst(t);
    if t != "" {
      SpecsTotal(t[SpecLength(t)..]);
    }
  }

  lemma {:induction false} InsideCountsMore(s: string)
    ensures InSpecs(s, true) >= InSpecs(s, false)
  {
    if s != "" {
      InsideCountsMore(s[1..]);
    }
  }

  /** A prefix never takes characters out of specifiers, and one with a '%' puts some in. */
  lemma {:induction false} PrefixCounts(root: string, s: string, inside: bool)
    ensures InSpecs(root + s, inside) >= InSpecs(s, false)
    ensures '%' in root && !inside ==> InSpecs(root + s, inside) > InSpecs(s, false)
  {
    if root == "" {
      assert root + s == s;
      InsideCountsMore(s);
    } else {
      assert (root + s)[1..] == root[1..] + s;
      PrefixCounts(root[1..], s, true);
      PrefixCounts(root[1..], s, false);
      PrefixCounts(root[1..], s, inside && !Terminator(root[0]));
    }
  }

  /** A directory put before a format keeps its specifiers exactly when it has no '%'. */
  lemma PrefixKeepsSpecsIff(root: string, s: string)
    ensures Specs(root + s) == Specs(s) <==> '%' !in root
  {
    if '%' in root {
      PrefixCounts(root, s, false);
      SpecsTotal(root + s);
      SpecsTotal(s);
    } else {
      PlainPrefix(root, s);
    }
  }
}
