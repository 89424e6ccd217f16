/**
 * The Python string operations the normalisation code relies on:
 * `lower`, `startswith`, `strip`, `split(",")`, `", ".join` and the
 * substring test `a in b`.
 */
module Text {

  /** `str.lower` on one character; only the ASCII letters are mapped (see README). */
  function LowerChar(c: char): char
  {
    if 'A' <= c <= 'Z' then (c as int + 32) as char else c
  }

  function Lower(s: string): (r: string)
    ensures |r| == |s|
  {
    seq(|s|, i requires 0 <= i < |s| => LowerChar(s[i]))
  }

  predicate IsLower(s: string)
  {
    Lower(s) == s
  }

  /** Lower-casing twice is lower-casing once. */
  lemma LowerIdempotent(s: string)
    ensures IsLower(Lower(s))
  {
    assert forall i | 0 <= i < |s| :: LowerChar(LowerChar(s[i])) == LowerChar(s[i]);
  }

  /** `{x.lower() for x in s}`: lower-case strings, no more of them than in `s`. */
  function LowerSet(s: set<string>): (r: set<string>)
    ensures forall y | y in s :: Lower(y) in r
    ensures forall x | x in r :: IsLower(x)
    ensures forall x | x in r :: exists y | y in s :: Lower(y) == x
    ensures |r| <= |s|
  {
    forall y | y in s
      ensures IsLower(Lower(y))
    {
      LowerIdempotent(y);
    }
    LowerSetSize(s);
    set y | y in s :: Lower(y)
  }

  lemma {:induction false} LowerSetSize(s: set<string>)
    ensures |set y | y in s :: Lower(y)| <= |s|
    decreases |s|
  {
    if s != {} {
      var y :| y in s;
      var rest := s - {y};
      LowerSetSize(rest);
      var a := set x | x in s :: Lower(x);
      var b := (set x | x in rest :: Lower(x)) + {Lower(y)};
      assert a <= b;
      assert b == a + (b - a);
    }
  }

  /** Every member of `LowerSet(s)` comes from a member of `s`. */
  lemma LowerSetMembers(s: set<string>, x: string)
    ensures x in LowerSet(s) <==> exists y | y in s :: Lower(y) == x
  {
  }

  /** Lower-casing a set of lower-case strings changes nothing. */
  lemma LowerSetOfLower(s: set<string>)
    requires forall x | x in s :: IsLower(x)
    ensures LowerSet(s) == s
  {
    forall x | x in LowerSet(s)
      ensures x in s
    {
      LowerSetMembers(s, x);
    }
  }

  /** `s.startswith(p)`. */
  predicate StartsWith(s: string, p: string)
  {
    |p| <= |s| && s[..|p|] == p
  }

  /** `Lower(s)` starts with a lower-case `p` exactly when `s` does, up to case. */
  lemma LowerStartsWith(s: string, p: string)
    requires IsLower(p)
    ensures StartsWith(Lower(s), p) <==> |p| <= |s| && Lower(s[..|p|]) == p
  {
    if |p| <= |s| {
      assert Lower(s)[..|p|] == Lower(s[..|p|]);
    }
  }

  /** Python's `str.isspace` on one character, which is also what `strip()` removes. */
  predicate IsSpace(c: char)
  {
    var n := c as int;
    n == 0x20 || 0x09 <= n <= 0x0D || 0x1C <= n <= 0x1F || n == 0x85 || n == 0xA0
    || n == 0x1680 || 0x2000 <= n <= 0x200A || n == 0x2028 || n == 0x2029
    || n == 0x202F || n == 0x205F || n == 0x3000
  }

  /** `s.lstrip()`. */
  function LStrip(s: string): (r: string)
    ensures |r| <= |s| && r == s[|s| - |r|..]
    ensures r != [] ==> !IsSpace(r[0])
    ensures forall i | 0 <= i < |s| - |r| :: IsSpace(s[i])
  {
    if s != [] && IsSpace(s[0]) then LStrip(s[1..]) else s
  }

  /** `s.rstrip()`. */
  function RStrip(s: string): (r: string)
    ensures |r| <= |s| && r == s[..|r|]
    ensures r != [] ==> !IsSpace(r[|r| - 1])
    ensures forall i | |r| <= i < |s| :: IsSpace(s[i])
  {
    if s != [] && IsSpace(s[|s| - 1]) then RStrip(s[..|s| - 1]) else s
  }

  /** `s.strip()`: the longest slice of `s` that neither starts nor ends with whitespace. */
  function Strip(s: string): (r: string)
    ensures IsStripped(r)
    ensures |r| <= |s|
  {
    RStrip(LStrip(s))
  }

  predicate IsStripped(s: string)
  {
    s != [] ==> !IsSpace(s[0]) && !IsSpace(s[|s| - 1])
  }

  /** Stripping leaves an already stripped string alone. */
  lemma StripStripped(s: string)
    requires IsStripped(s)
    ensures Strip(s) == s
  {
  }

  /** Leading and trailing whitespace around a stripped string is what `strip` removes. */
  lemma {:induction false} StripPadded(w1: string, s: string, w2: string)
    requires forall i | 0 <= i < |w1| :: IsSpace(w1[i])
    requires forall i | 0 <= i < |w2| :: IsSpace(w2[i])
    requires s != [] && IsStripped(s)
    ensures Strip(w1 + s + w2) == s
  {
    assert w1 + s + w2 == w1 + (s + w2);
    assert (s + w2)[0] == s[0];
    LStripPadded(w1, s + w2);
    RStripPadded(s, w2);
  }

  lemma {:induction false} LStripPadded(w: string, s: string)
    requires forall i | 0 <= i < |w| :: IsSpace(w[i])
    requires s != [] && !IsSpace(s[0])
    ensures LStrip(w + s) == s
  {
    if w != [] {
      var t := w + s;
      assert t[0] == w[0] && t[1..] == w[1..] + s;
      assert LStrip(t) == LStrip(t[1..]);
      LStripPadded(w[1..], s);
    } else {
      assert w + s == s;
    }
  }

  lemma {:induction false} RStripPadded(s: string, w: string)
    requires forall i | 0 <= i < |w| :: IsSpace(w[i])
    requires s != [] && !IsSpace(s[|s| - 1])
    ensures RStrip(s + w) == s
  {
    if w != [] {
      assert (s + w)[..|s + w| - 1] == s + w[..|w| - 1];
      RStripPadded(s, w[..|w| - 1]);
    }
  }

  /** `s.split(sep)` for a one-character separator: never empty, and the pieces hold no separator. */
  function Split(s: string, sep: char): (r: seq<string>)
    ensures |r| >= 1
    ensures forall i | 0 <= i < |r| :: sep !in r[i]
    ensures Join(r, [sep]) == s
  {
    if s == [] then [""]
    else
      var rest := Split(s[1..], sep);
      if s[0] == sep then
        JoinCons("", rest, [sep]);
        [""] + rest
      else
        JoinHead(s[0], rest, [sep]);
        [[s[0]] + rest[0]] + rest[1..]
  }

  /** `sep.join(xs)`. */
  function Join(xs: seq<string>, sep: string): string
  {
    if xs == [] then ""
    else if |xs| == 1 then xs[0]
    else xs[0] + sep + Join(xs[1..], sep)
  }

  lemma JoinCons(x: string, xs: seq<string>, sep: string)
    requires xs != []
    ensures Join([x] + xs, sep) == x + sep + Join(xs, sep)
  {
    assert ([x] + xs)[1..] == xs;
  }

  lemma JoinHead(c: char, xs: seq<string>, sep: string)
    requires xs != []
    ensures [c] + Join(xs, sep) == Join([[c] + xs[0]] + xs[1..], sep)
  {
    var ys := [[c] + xs[0]] + xs[1..];
    if |xs| > 1 {
      assert ys[1..] == xs[1..];
    }
  }

  /** Splitting undoes joining, so `Split` is the only splitting that `Join` reassembles. */
  lemma {:induction false} SplitJoin(xs: seq<string>, sep: char)
    requires xs != []
    requires forall i | 0 <= i < |xs| :: sep !in xs[i]
    ensures Split(Join(xs, [sep]), sep) == xs
  {
    if |xs| == 1 {
      SplitNoSeparator(xs[0], sep);
    } else {
      SplitJoin(xs[1..], sep);
      SplitAfter(xs[0], Join(xs[1..], [sep]), sep);
      assert [xs[0]] + xs[1..] == xs;
    }
  }

  lemma {:induction false} SplitNoSeparator(s: string, sep: char)
    requires sep !in s
    ensures Split(s, sep) == [s]
  {
    if s != [] {
      SplitNoSeparator(s[1..], sep);
      assert [s[0]] + s[1..] == s;
    }
  }

  lemma {:induction false} SplitAfter(x: string, rest: string, sep: char)
    requires sep !in x
    ensures Split(x + [sep] + rest, sep) == [x] + Split(rest, sep)
  {
    if x == [] {
      assert (x + [sep] + rest)[1..] == rest;
    } else {
      assert (x + [sep] + rest)[1..] == x[1..] + [sep] + rest;
      SplitAfter(x[1..], rest, sep);
      assert [x[0]] + x[1..] == x;
    }
  }

  /** Python's `p in s` on strings. */
  predicate IsSubstring(p: string, s: string)
  {
    StartsWith(s, p) || (s != [] && IsSubstring(p, s[1..]))
  }

  /** `p` occurs in `s` at position `i`. */
  predicate OccursAt(p: string, s: string, i: int)
  {
    0 <= i <= |s| - |p| && s[i..i + |p|] == p
  }

  /** The recursive test agrees with "some slice of `s` equals `p`". */
  lemma {:induction false} IsSubstringSlice(p: string, s: string)
    ensures IsSubstring(p, s) <==> exists i :: OccursAt(p, s, i)
  {
    if s != [] {
      IsSubstringSlice(p, s[1..]);
      if IsSubstring(p, s[1..]) {
        var i :| OccursAt(p, s[1..], i);
        assert s[1..][i..i + |p|] == s[i + 1..i + 1 + |p|];
        assert OccursAt(p, s, i + 1);
      }
      if StartsWith(s, p) {
        assert OccursAt(p, s, 0);
      }
      if exists i :: OccursAt(p, s, i) {
        var i :| OccursAt(p, s, i);
        if i > 0 {
          assert s[1..][i - 1..i - 1 + |p|] == s[i..i + |p|];
          assert OccursAt(p, s[1..], i - 1);
        }
      }
    } else {
      if IsSubstring(p, s) {
        assert OccursAt(p, s, 0);
      }
      if exists i :: OccursAt(p, s, i) {
        var i :| OccursAt(p, s, i);
        assert StartsWith(s, p);
      }
    }
  }
}
