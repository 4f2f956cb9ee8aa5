/**
 * The Python string operations the scripts rely on: `strip`, `split("?", 1)[0]`,
 * `replace`, `lower`, `capitalize`, and the ordering `sorted` uses.
 */
module Text {

  /** The characters for which Python's `str.isspace()` holds. */
  predicate IsSpace(c: char)
  {
    ('\t' <= c <= '\r') || ('\U{1C}' <= c <= ' ') || c == '\U{85}' || c == '\U{A0}'
    || c == '\U{1680}' || ('\U{2000}' <= c <= '\U{200A}') || c == '\U{2028}' || c == '\U{2029}'
    || c == '\U{202F}' || c == '\U{205F}' || c == '\U{3000}'
  }

  predicate AllSpace(s: string)
  {
    forall i :: 0 <= i < |s| ==> IsSpace(s[i])
  }

  /** Neither the first nor the last character is whitespace. */
  predicate NoEdgeSpace(s: string)
  {
    s == [] || (!IsSpace(s[0]) && !IsSpace(s[|s| - 1]))
  }

  /** `s.lstrip()`: drops the leading whitespace. */
  function TrimStart(s: string): (r: string)
    ensures |r| <= |s| && r == s[|s| - |r|..]
    ensures AllSpace(s[..|s| - |r|])
    ensures r == [] || !IsSpace(r[0])
  {
    if s != [] && IsSpace(s[0]) then
      var r := TrimStart(s[1..]);
      var dropped, rest := s[..|s| - |r|], s[1..][..|s| - 1 - |r|];
      assert s[1..][|s| - 1 - |r|..] == s[|s| - |r|..];
      assert forall i :: 0 <= i < |rest| ==> rest[i] == dropped[i + 1];
      r
    else s
  }

  /** `s.rstrip()`: drops the trailing whitespace. */
  function TrimEnd(s: string): (r: string)
    ensures |r| <= |s| && r == s[..|r|]
    ensures AllSpace(s[|r|..])
    ensures r == [] || !IsSpace(r[|r| - 1])
  {
    if s != [] && IsSpace(s[|s| - 1]) then
      var r := TrimEnd(s[..|s| - 1]);
      assert s[..|s| - 1][..|r|] == s[..|r|];
      assert forall i :: 0 <= i < |s| - 1 - |r| ==> s[|r|..][i] == s[..|s| - 1][|r|..][i];
      r
    else s
  }

  /** `s.strip()`. */
  function Strip(s: string): (r: string)
  {
    TrimEnd(TrimStart(s))
  }

  lemma {:induction false} TrimStartOf(p: string, t: string)
    requires AllSpace(p)
    requires t == [] || !IsSpace(t[0])
    ensures TrimStart(p + t) == t
  {
    if p != [] {
      assert (p + t)[1..] == p[1..] + t;
      TrimStartOf(p[1..], t);
    }
  }

  lemma {:induction false} TrimEndOf(t: string, q: string)
    requires AllSpace(q)
    requires t == [] || !IsSpace(t[|t| - 1])
    ensures TrimEnd(t + q) == t
  {
    if q != [] {
      assert (t + q)[..|t + q| - 1] == t + q[..|q| - 1];
      TrimEndOf(t, q[..|q| - 1]);
    }
  }

  /**
   * `strip` is characterised by its result: whatever is left after removing
   * whitespace on both sides, provided the remainder has no whitespace at
   * either edge.
   */
  lemma StripOf(p: string, t: string, q: string)
    requires AllSpace(p) && AllSpace(q) && NoEdgeSpace(t)
    ensures Strip(p + t + q) == t
  {
    assert p + t + q == p + (t + q);
    if t == [] {
      TrimStartOf(p + q, []);
      assert p + q + [] == p + t + q;
    } else {
      TrimStartOf(p, t + q);
      TrimEndOf(t, q);
    }
  }

  /** `strip` leaves no whitespace at either edge, and only an all-whitespace string strips to "". */
  lemma StripEdges(s: string)
    ensures NoEdgeSpace(Strip(s))
    ensures Strip(s) == [] <==> AllSpace(s)
  {
    var u := TrimStart(s);
    if Strip(s) == [] {
      assert AllSpace(u[..|u|]) && u[..|u|] == u;
      assert u == [];
      assert s[..|s|] == s;
    }
    if AllSpace(s) {
      TrimStartOf(s, []);
      assert s + [] == s;
    }
  }

  /**
   * `t` is what remains of `s` once the whitespace on both sides is removed:
   * `s` is whitespace, then `t`, then whitespace, and `t` has none at its
   * own edges.
   */
  ghost predicate StrippedFrom(s: string, t: string)
  {
    NoEdgeSpace(t) && exists p, q :: s == p + t + q && AllSpace(p) && AllSpace(q)
  }

  /** `strip` gives exactly that remainder, and it is the only one. */
  lemma StripIff(s: string, t: string)
    ensures StrippedFrom(s, t) <==> t == Strip(s)
  {
    if StrippedFrom(s, t) {
      var p, q :| s == p + t + q && AllSpace(p) && AllSpace(q);
      StripOf(p, t, q);
    }
    if t == Strip(s) {
      StripIsStripped(s);
    }
  }

  lemma StripIsStripped(s: string)
    ensures StrippedFrom(s, Strip(s))
  {
    var u := TrimStart(s);
    var t := TrimEnd(u);
    var p, q := s[..|s| - |u|], u[|t|..];
    SplitAt(u, |t|);
    SplitAt(s, |s| - |u|);
    Assoc(p, t, q);
    StripEdges(s);
    Padded(s, p, t, q);
  }

  lemma Padded(s: string, p: string, t: string, q: string)
    requires s == p + t + q && AllSpace(p) && AllSpace(q) && NoEdgeSpace(t)
    ensures StrippedFrom(s, t)
  {
  }

  lemma SplitAt<T>(s: seq<T>, k: nat)
    requires k <= |s|
    ensures s == s[..k] + s[k..]
  {
  }

  lemma Assoc<T>(a: seq<T>, b: seq<T>, c: seq<T>)
    ensures a + (b + c) == a + b + c
  {
  }

  /** `s.split(c, 1)[0]`: everything before the first `c`. */
  function BeforeFirst(s: string, c: char): (r: string)
    ensures c !in r
    ensures |r| <= |s| && r == s[..|r|]
    ensures c in s ==> |r| < |s| && s[|r|] == c
    ensures c !in s ==> r == s
  {
    if s == [] then []
    else if s[0] == c then []
    else [s[0]] + BeforeFirst(s[1..], c)
  }

  /** `s.replace(a, b)` for single characters `a` and `b`. */
  function ReplaceChar(s: string, a: char, b: char): (r: string)
    ensures |r| == |s|
    ensures forall i :: 0 <= i < |s| ==> r[i] == if s[i] == a then b else s[i]
  {
    if s == [] then [] else [if s[0] == a then b else s[0]] + ReplaceChar(s[1..], a, b)
  }

  function LowerChar(c: char): char
  {
    if 'A' <= c <= 'Z' then (c as int + 32) as char else c
  }

  function UpperChar(c: char): char
  {
    if 'a' <= c <= 'z' then (c as int - 32) as char else c
  }

  /** `s.lower()`, on the ASCII letters. */
  function Lower(s: string): (r: string)
    ensures |r| == |s|
    ensures forall i :: 0 <= i < |s| ==> r[i] == LowerChar(s[i])
  {
    if s == [] then [] else [LowerChar(s[0])] + Lower(s[1..])
  }

  /** A string without upper-case letters is its own lower case. */
  lemma LowerIdle(s: string)
    requires forall i :: 0 <= i < |s| ==> !('A' <= s[i] <= 'Z')
    ensures Lower(s) == s
  {
    assert forall i :: 0 <= i < |s| ==> Lower(s)[i] == s[i];
  }

  /** `s.capitalize()`, on the ASCII letters: first letter upper case, the rest lower case. */
  function Capitalize(s: string): (r: string)
    ensures |r| == |s|
    ensures s != [] ==> r[0] == UpperChar(s[0]) && r[1..] == Lower(s[1..])
  {
    if s == [] then [] else [UpperChar(s[0])] + Lower(s[1..])
  }

  /** Python's `a < b` on strings: lexicographic by code point, a proper prefix first. */
  predicate Less(a: string, b: string)
  {
    if a == [] then b != []
    else if b == [] then false
    else if a[0] != b[0] then a[0] < b[0]
    else Less(a[1..], b[1..])
  }

  lemma {:induction false} LessIrreflexive(a: string)
    ensures !Less(a, a)
  {
    if a != [] {
      LessIrreflexive(a[1..]);
    }
  }

  lemma {:induction false} LessTransitive(a: string, b: string, c: string)
    requires Less(a, b) && Less(b, c)
    ensures Less(a, c)
  {
    if a != [] && b != [] && c != [] && a[0] == b[0] && b[0] == c[0] {
      LessTransitive(a[1..], b[1..], c[1..]);
    }
  }

  lemma {:induction false} LessTotal(a: string, b: string)
    ensures a == b || Less(a, b) || Less(b, a)
  {
    if a != [] && b != [] && a[0] == b[0] {
      LessTotal(a[1..], b[1..]);
      if a[1..] == b[1..] {
        assert a == [a[0]] + a[1..] && b == [b[0]] + b[1..];
      }
    }
  }

  lemma {:induction false} LessAsymmetric(a: string, b: string)
    requires Less(a, b)
    ensures !Less(b, a)
  {
    if a != [] && b != [] && a[0] == b[0] {
      LessAsymmetric(a[1..], b[1..]);
    }
  }

  predicate StrictlySorted(xs: seq<string>)
  {
    forall i, j :: 0 <= i < j < |xs| ==> Less(xs[i], xs[j])
  }

  /** Inserts `x` into a strictly sorted list unless it is already there. */
  function Insert(x: string, xs: seq<string>): (r: seq<string>)
    requires StrictlySorted(xs)
    ensures StrictlySorted(r)
    ensures forall y :: y in r <==> y == x || y in xs
  {
    if xs == [] then [x]
    else if x == xs[0] then xs
    else if Less(x, xs[0]) then
      assert forall j :: 0 < j < |xs| ==> Less(x, xs[j]) by {
        forall j | 0 < j < |xs| ensures Less(x, xs[j]) { LessTransitive(x, xs[0], xs[j]); }
      }
      [x] + xs
    else
      LessTotal(x, xs[0]);
      var rest := Insert(x, xs[1..]);
      assert forall y :: y in rest ==> Less(xs[0], y);
      [xs[0]] + rest
  }

  /** `sorted(set(xs))`. */
  function SortedSet(xs: seq<string>): (r: seq<string>)
    ensures StrictlySorted(r)
    ensures forall y :: y in r <==> y in xs
  {
    if xs == [] then [] else Insert(xs[|xs| - 1], SortedSet(xs[..|xs| - 1]))
  }

  /** A strictly sorted list is determined by its elements, so `sorted(set(xs))` has one answer. */
  lemma {:induction false} StrictlySortedUnique(xs: seq<string>, ys: seq<string>)
    requires StrictlySorted(xs) && StrictlySorted(ys)
    requires forall y :: y in xs <==> y in ys
    ensures xs == ys
  {
    assert xs == [] <==> ys == [] by {
      if xs != [] { assert xs[0] in ys; }
      if ys != [] { assert ys[0] in xs; }
    }
    if xs != [] {
      assert xs[0] in ys && ys[0] in xs;
      var j :| 0 <= j < |xs| && xs[j] == ys[0];
      var k :| 0 <= k < |ys| && ys[k] == xs[0];
      if xs[0] != ys[0] {
        assert j > 0 && k > 0;
        assert Less(xs[0], ys[0]) && Less(ys[0], xs[0]);
        LessAsymmetric(xs[0], ys[0]);
      } else {
        forall y ensures y in xs[1..] <==> y in ys[1..] {
          if y in xs[1..] {
            var i :| 1 <= i < |xs| && xs[i] == y;
            assert Less(xs[0], y);
            LessIrreflexive(xs[0]);
            assert y in ys;
            var m :| 0 <= m < |ys| && ys[m] == y;
            assert m != 0;
          }
          if y in ys[1..] {
            var i :| 1 <= i < |ys| && ys[i] == y;
            assert Less(ys[0], y);
            LessIrreflexive(ys[0]);
            assert y in xs;
            var m :| 0 <= m < |xs| && xs[m] == y;
            assert m != 0;
          }
        }
        StrictlySortedUnique(xs[1..], ys[1..]);
        assert xs == [xs[0]] + xs[1..] && ys == [ys[0]] + ys[1..];
      }
    }
  }

  /** `part` occurs in `text` at offset `i`. */
  predicate OccursAt(text: string, part: string, i: nat)
  {
    i + |part| <= |text| && text[i..i + |part|] == part
  }

  /** `parts` occur in `text` one after another, without overlapping. */
  ghost predicate InOrder(text: string, parts: seq<string>)
    decreases |parts|
  {
    parts == [] ||
    exists i: nat :: OccursAt(text, parts[0], i) && InOrder(text[i + |parts[0]|..], parts[1..])
  }

  lemma InOrderCons(pre: string, p: string, rest: string, ps: seq<string>)
    requires InOrder(rest, ps)
    ensures InOrder(pre + p + rest, [p] + ps)
  {
    var t := pre + p + rest;
    assert t[|pre|..|pre| + |p|] == p;
    assert t[|pre| + |p|..] == rest;
    assert OccursAt(t, p, |pre|);
    assert ([p] + ps)[0] == p && ([p] + ps)[1..] == ps;
  }
}
