/**
 * Sequence operations behind list comprehensions and generators: an
 * order-preserving filter, and concatenation of a sequence of sequences.
 */
module Seqs {

  /** `[x for x in s if p(x)]`. */
  function Filter<T>(s: seq<T>, p: T -> bool): (r: seq<T>)
    ensures |r| <= |s|
    ensures forall x | x in r :: x in s && p(x)
    ensures forall x | x in s && p(x) :: x in r
  {
    if s == [] then []
    else if p(s[0]) then [s[0]] + Filter(s[1..], p)
    else Filter(s[1..], p)
  }

  /** The number of leading elements of `s` that satisfy `p`: where a loop that stops at the first other one stops. */
  function Leading<T>(s: seq<T>, p: T -> bool): (n: nat)
    ensures n <= |s|
    ensures forall i | 0 <= i < n :: p(s[i])
    ensures n < |s| ==> !p(s[n])
  {
    if s == [] || !p(s[0]) then 0 else 1 + Leading(s[1..], p)
  }

  /** `a` can be obtained from `b` by deleting elements: it keeps their order. */
  ghost predicate IsSubsequence<T>(a: seq<T>, b: seq<T>)
    decreases |b|
  {
    a == [] || (b != [] && (if a[0] == b[0] then IsSubsequence(a[1..], b[1..]) else IsSubsequence(a, b[1..])))
  }

  /** A filter keeps the order of what it keeps. */
  lemma {:induction false} FilterIsSubsequence<T>(s: seq<T>, p: T -> bool)
    ensures IsSubsequence(Filter(s, p), s)
  {
    if s != [] {
      FilterIsSubsequence(s[1..], p);
      if !p(s[0]) {
        var r := Filter(s[1..], p);
        assert r != [] ==> r[0] in r;
      }
    }
  }

  /** Filtering distributes over concatenation. */
  lemma {:induction false} FilterAppend<T>(a: seq<T>, b: seq<T>, p: T -> bool)
    ensures Filter(a + b, p) == Filter(a, p) + Filter(b, p)
  {
    if a == [] {
      assert a + b == b;
    } else {
      TailAppend(a, b);
      FilterAppend(a[1..], b, p);
      if p(a[0]) {
        ConcatAssoc([a[0]], Filter(a[1..], p), Filter(b, p));
      }
    }
  }

  /** A filter that keeps everything is the identity. */
  lemma {:induction false} FilterAll<T>(s: seq<T>, p: T -> bool)
    requires forall x | x in s :: p(x)
    ensures Filter(s, p) == s
  {
    if s != [] {
      FilterAll(s[1..], p);
      assert [s[0]] + s[1..] == s;
    }
  }

  /** The items of all the sequences, in order (`for xs in xss: yield from xs`). */
  function Concat<T>(xss: seq<seq<T>>): (r: seq<T>)
    ensures xss == [] ==> r == []
  {
    if xss == [] then [] else xss[0] + Concat(xss[1..])
  }

  lemma {:induction false} ConcatAppend<T>(xss: seq<seq<T>>, yss: seq<seq<T>>)
    ensures Concat(xss + yss) == Concat(xss) + Concat(yss)
  {
    if xss == [] {
      assert xss + yss == yss;
    } else {
      assert (xss + yss)[1..] == xss[1..] + yss;
      ConcatAppend(xss[1..], yss);
      ConcatAssoc(xss[0], Concat(xss[1..]), Concat(yss));
    }
  }

  /** The length of a concatenation is the sum of the lengths. */
  function TotalLength<T>(xss: seq<seq<T>>): nat
  {
    if xss == [] then 0 else |xss[0]| + TotalLength(xss[1..])
  }

  lemma {:induction false} ConcatLength<T>(xss: seq<seq<T>>)
    ensures |Concat(xss)| == TotalLength(xss)
  {
    if xss != [] {
      ConcatLength(xss[1..]);
    }
  }

  /** `[f(x) for x in s]`. */
  function Map<A, B>(f: A -> B, s: seq<A>): (r: seq<B>)
    ensures |r| == |s|
    ensures forall i | 0 <= i < |s| :: r[i] == f(s[i])
  {
    if s == [] then [] else [f(s[0])] + Map(f, s[1..])
  }

  /** The filter of a non-empty sequence, one step unfolded. */
  lemma FilterStep<T>(s: seq<T>, n: nat, p: T -> bool)
    requires n < |s|
    ensures Filter(s[..1 + n], p) == if p(s[0]) then [s[0]] + Filter(s[1..][..n], p) else Filter(s[1..][..n], p)
  {
    assert s[..1 + n][1..] == s[1..][..n];
  }

  /** The image of a non-empty prefix, one step unfolded. */
  lemma MapStep<A, B>(s: seq<A>, n: nat, f: A -> B)
    requires n < |s|
    ensures Map(f, s[..1 + n]) == [f(s[0])] + Map(f, s[1..][..n])
  {
    assert s[..1 + n] == [s[0]] + s[1..][..n];
    MapCons(f, s[0], s[1..][..n]);
  }

  /** Appending one element appends its image. */
  lemma MapSnoc<A, B>(f: A -> B, s: seq<A>, x: A)
    ensures Map(f, s + [x]) == Map(f, s) + [f(x)]
  {
    var l, r := Map(f, s + [x]), Map(f, s) + [f(x)];
    forall i | 0 <= i < |l|
      ensures l[i] == r[i]
    {
      assert (s + [x])[i] == if i < |s| then s[i] else x;
    }
  }

  lemma MapCons<A, B>(f: A -> B, x: A, s: seq<A>)
    ensures Map(f, [x] + s) == [f(x)] + Map(f, s)
  {
    assert ([x] + s)[1..] == s;
  }

  lemma ConcatAssoc<T>(a: seq<T>, b: seq<T>, c: seq<T>)
    ensures (a + b) + c == a + (b + c)
  {
  }

  lemma TailAppend<T>(a: seq<T>, b: seq<T>)
    requires a != []
    ensures (a + b)[0] == a[0] && (a + b)[1..] == a[1..] + b
  {
  }

  lemma EmptyAppend<T>(a: seq<T>, b: seq<T>)
    requires a == []
    ensures a + b == b
  {
  }

  lemma ConsAt<T>(x: T, s: seq<T>)
    ensures |[x] + s| == 1 + |s| && ([x] + s)[0] == x
    ensures forall i | 0 <= i < |s| :: ([x] + s)[i + 1] == s[i]
  {
  }

  lemma WholePrefix<T>(s: seq<T>)
    ensures s[..|s|] == s
  {
  }
}
