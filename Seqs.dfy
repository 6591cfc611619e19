/** Array operations the core composes: `map`, `filter`, the
    first-occurrence order of `[...new Set(xs)]`, and the facts about them
    the rest of the model uses. */
module Seqs {

  predicate NoDups<T(==)>(s: seq<T>)
  {
    forall i, j :: 0 <= i < j < |s| ==> s[i] != s[j]
  }

  /** `a` can be obtained from `b` by deleting elements. */
  predicate IsSubseq<T(==)>(a: seq<T>, b: seq<T>)
  {
    if a == [] then true
    else if b == [] then false
    else if a[0] == b[0] then IsSubseq(a[1..], b[1..])
    else IsSubseq(a, b[1..])
  }

  /** `s.map(f)` */
  function Map<A, B>(s: seq<A>, f: A -> B): (r: seq<B>)
    ensures |r| == |s|
    ensures forall i :: 0 <= i < |s| ==> r[i] == f(s[i])
  {
    seq(|s|, i requires 0 <= i < |s| => f(s[i]))
  }

  /** `s.filter(p)`: the elements satisfying `p`, in their order. */
  function Filter<T(==)>(s: seq<T>, p: T -> bool): (r: seq<T>)
    ensures |r| <= |s|
    ensures forall i :: 0 <= i < |r| ==> r[i] in s && p(r[i])
    ensures forall i :: 0 <= i < |s| && p(s[i]) ==> s[i] in r
    ensures forall i {:trigger multiset(r)[s[i]]} :: 0 <= i < |s| && p(s[i]) ==> multiset(r)[s[i]] == multiset(s)[s[i]]
  {
    if s == [] then []
    else
      var r := Filter(s[1..], p);
      FilterStep(s, r, p);
      assert multiset(s) == multiset{s[0]} + multiset(s[1..]) by {
        assert s == [s[0]] + s[1..];
      }
      if p(s[0]) then [s[0]] + r else r
  }

  /** The step of `Filter`: what holds of the filtered tail carries over
      to the whole. */
  lemma FilterStep<T>(s: seq<T>, r: seq<T>, p: T -> bool)
    requires s != []
    requires |r| <= |s| - 1
    requires forall i :: 0 <= i < |r| ==> r[i] in s[1..] && p(r[i])
    requires forall i :: 1 <= i < |s| && p(s[i]) ==> s[i] in r
    ensures var r' := if p(s[0]) then [s[0]] + r else r;
      && |r'| <= |s|
      && (forall i :: 0 <= i < |r'| ==> r'[i] in s && p(r'[i]))
      && (forall i :: 0 <= i < |s| && p(s[i]) ==> s[i] in r')
  {
    assert s == [s[0]] + s[1..];
    var r' := if p(s[0]) then [s[0]] + r else r;
    forall i | 0 <= i < |r'| ensures r'[i] in s && p(r'[i]) {
      if p(s[0]) && i > 0 {
        assert r'[i] == r[i - 1];
      }
    }
  }

  /** What the filter keeps is a subsequence of what it was given. */
  lemma {:induction false} FilterIsSubseq<T>(s: seq<T>, p: T -> bool)
    ensures IsSubseq(Filter(s, p), s)
  {
    if s != [] {
      FilterIsSubseq(s[1..], p);
      var r := Filter(s[1..], p);
      if !p(s[0]) && r != [] {
        assert p(r[0]);
      }
    }
  }

  lemma {:induction false} FilterKeepsAll<T>(s: seq<T>, p: T -> bool)
    requires forall i :: 0 <= i < |s| ==> p(s[i])
    ensures Filter(s, p) == s
  {
    if s != [] {
      FilterKeepsAll(s[1..], p);
    }
  }

  lemma {:induction false} FilterAppend<T>(a: seq<T>, b: seq<T>, p: T -> bool)
    ensures Filter(a + b, p) == Filter(a, p) + Filter(b, p)
  {
    if a == [] {
      assert a + b == b;
    } else {
      assert (a + b)[1..] == a[1..] + b;
      FilterAppend(a[1..], b, p);
    }
  }

  /** Two filters in a row keep what one filter by both conditions keeps. */
  lemma {:induction false} FilterFilter<T>(s: seq<T>, p: T -> bool, q: T -> bool)
    ensures Filter(Filter(s, p), q) == Filter(s, x => p(x) && q(x))
  {
    if s != [] {
      FilterFilter(s[1..], p, q);
    }
  }

  lemma {:induction false} SubseqTransitive<T>(a: seq<T>, b: seq<T>, c: seq<T>)
    requires IsSubseq(a, b) && IsSubseq(b, c)
    ensures IsSubseq(a, c)
    decreases |c|
  {
    if a != [] && c != [] {
      if b[0] == c[0] {
        if a[0] == b[0] {
          SubseqTransitive(a[1..], b[1..], c[1..]);
        } else {
          SubseqTransitive(a, b[1..], c[1..]);
        }
      } else {
        SubseqTransitive(a, b, c[1..]);
        if a[0] == c[0] {
          SubseqDropHead(a, c[1..]);
        }
      }
    }
  }

  lemma {:induction false} SubseqDropHead<T>(a: seq<T>, d: seq<T>)
    requires a != [] && IsSubseq(a, d)
    ensures IsSubseq(a[1..], d)
    decreases |d|
  {
    if a[0] != d[0] {
      SubseqDropHead(a, d[1..]);
    }
    assert IsSubseq(a[1..], d[1..]);
    if |a| > 1 && a[1] == d[0] {
      SubseqDropHead(a[1..], d[1..]);
    }
  }

  /** Index of the first occurrence of `x` in `s`. */
  function FirstIndex<T(==)>(s: seq<T>, x: T): (k: nat)
    requires x in s
    ensures k < |s| && s[k] == x
    ensures forall j :: 0 <= j < k ==> s[j] != x
  {
    if s[0] == x then 0 else 1 + FirstIndex(s[1..], x)
  }

  lemma FirstIndexOfPrefix<T>(s: seq<T>, n: nat, x: T)
    requires n <= |s| && x in s[..n]
    ensures x in s && FirstIndex(s, x) == FirstIndex(s[..n], x)
  {
    var k := FirstIndex(s[..n], x);
    var k' := FirstIndex(s, x);
    assert s[k] == x;
    assert k' <= k;
    assert s[..n][k'] == x;
  }

  /** `[...new Set(s)]`: the distinct elements of `s` in the order of their
      first occurrence. */
  function Dedup<T(==)>(s: seq<T>): (r: seq<T>)
    ensures NoDups(r)
    ensures forall i :: 0 <= i < |r| ==> r[i] in s
    ensures forall i :: 0 <= i < |s| ==> s[i] in r
    ensures forall i, j :: 0 <= i < j < |r| ==> FirstIndex(s, r[i]) < FirstIndex(s, r[j])
  {
    if s == [] then []
    else
      var d := Dedup(s[..|s| - 1]);
      DedupSnoc(s, d);
      if s[|s| - 1] in d then d else d + [s[|s| - 1]]
  }

  /** The step of `Dedup`: what holds of the distinct elements of all but
      the last element of `s` carries over to `s`. */
  lemma DedupSnoc<T>(s: seq<T>, d: seq<T>)
    requires s != []
    requires NoDups(d)
    requires forall i :: 0 <= i < |d| ==> d[i] in s[..|s| - 1]
    requires forall i :: 0 <= i < |s| - 1 ==> s[i] in d
    requires forall i, j :: 0 <= i < j < |d| ==> FirstIndex(s[..|s| - 1], d[i]) < FirstIndex(s[..|s| - 1], d[j])
    ensures var r := if s[|s| - 1] in d then d else d + [s[|s| - 1]];
      && NoDups(r)
      && (forall i :: 0 <= i < |r| ==> r[i] in s)
      && (forall i :: 0 <= i < |s| ==> s[i] in r)
      && (forall i, j :: 0 <= i < j < |r| ==> FirstIndex(s, r[i]) < FirstIndex(s, r[j]))
  {
    var last := s[|s| - 1];
    DedupSnocPrefix(s, d);
    forall i | 0 <= i < |s| ensures s[i] in d + [last] {
      if i < |s| - 1 {
        assert s[i] == s[..|s| - 1][i];
      }
    }
    if last !in d {
      DedupSnocNew(s, d, d + [last]);
    }
  }

  /** Adding an element at the end changes no first index. */
  lemma DedupSnocPrefix<T>(s: seq<T>, d: seq<T>)
    requires s != []
    requires forall i :: 0 <= i < |d| ==> d[i] in s[..|s| - 1]
    requires forall i, j :: 0 <= i < j < |d| ==> FirstIndex(s[..|s| - 1], d[i]) < FirstIndex(s[..|s| - 1], d[j])
    ensures forall i :: 0 <= i < |d| ==> d[i] in s && FirstIndex(s, d[i]) < |s| - 1
    ensures forall i, j :: 0 <= i < j < |d| ==> FirstIndex(s, d[i]) < FirstIndex(s, d[j])
  {
    var n := |s| - 1;
    forall i | 0 <= i < |d| ensures d[i] in s && FirstIndex(s, d[i]) < n {
      FirstIndexOfPrefix(s, n, d[i]);
    }
    forall i, j | 0 <= i < j < |d| ensures FirstIndex(s, d[i]) < FirstIndex(s, d[j]) {
      FirstIndexOfPrefix(s, n, d[i]);
      FirstIndexOfPrefix(s, n, d[j]);
    }
  }

  /** The case of `DedupSnoc` where the last element is new: it comes
      after every earlier one. */
  lemma DedupSnocNew<T>(s: seq<T>, d: seq<T>, r: seq<T>)
    requires s != [] && s[|s| - 1] !in d && r == d + [s[|s| - 1]]
    requires forall i :: 0 <= i < |s| - 1 ==> s[i] in d
    requires forall i :: 0 <= i < |d| ==> d[i] in s && FirstIndex(s, d[i]) < |s| - 1
    requires forall i, j :: 0 <= i < j < |d| ==> FirstIndex(s, d[i]) < FirstIndex(s, d[j])
    ensures forall i :: 0 <= i < |r| ==> r[i] in s
    ensures forall i, j :: 0 <= i < j < |r| ==> FirstIndex(s, r[i]) < FirstIndex(s, r[j])
  {
    var last := s[|s| - 1];
    assert FirstIndex(s, last) == |s| - 1;
    forall i | 0 <= i < |r| ensures r[i] in s {
      if i < |d| {
        assert r[i] == d[i];
      }
    }
    forall i, j | 0 <= i < j < |r| ensures FirstIndex(s, r[i]) < FirstIndex(s, r[j]) {
      assert r[i] == d[i];
      if j < |d| {
        assert r[j] == d[j];
      }
    }
  }

  lemma {:induction false} DedupOfDistinct<T>(s: seq<T>)
    requires NoDups(s)
    ensures Dedup(s) == s
  {
    if s != [] {
      var init := s[..|s| - 1];
      var last := s[|s| - 1];
      assert NoDups(init) by {
        forall i, j | 0 <= i < j < |init| ensures init[i] != init[j] {
          assert init[i] == s[i] && init[j] == s[j];
        }
      }
      assert last !in init by {
        forall i | 0 <= i < |init| ensures init[i] != last {
          assert init[i] == s[i];
        }
      }
      DedupOfDistinct(init);
      assert Dedup(s) == init + [last];
      assert s == init + [last];
    }
  }

  /** Having the same members is transitive, from sequences to a set. */
  lemma SameMembers<T>(a: seq<T>, b: seq<T>, s: set<T>)
    requires forall x :: x in a <==> x in b
    requires forall x :: x in b <==> x in s
    ensures forall x :: x in a <==> x in s
  {
  }

  /** Every element of a subsequence occurs in the whole. */
  lemma {:induction false} SubseqMembers<T>(a: seq<T>, b: seq<T>)
    requires IsSubseq(a, b)
    ensures forall i :: 0 <= i < |a| ==> a[i] in b
  {
    if a != [] {
      if a[0] == b[0] {
        SubseqMembers(a[1..], b[1..]);
        forall i | 0 <= i < |a| ensures a[i] in b {
          if i > 0 {
            assert a[i] == a[1..][i - 1];
          }
        }
      } else {
        SubseqMembers(a, b[1..]);
      }
    }
  }

  /** `s.map(e => matches(e) ? x : e)`: every element `matches` accepts is
      replaced by `x`. */
  function ReplaceWhere<T>(s: seq<T>, matches: T -> bool, x: T): (r: seq<T>)
    ensures |r| == |s|
    ensures forall i :: 0 <= i < |s| ==> r[i] == if matches(s[i]) then x else s[i]
  {
    Map(s, e => if matches(e) then x else e)
  }

  /** When exactly one element matches, replacing is updating that one
      position: the length and every other element are unchanged. */
  lemma ReplaceWhereUnique<T>(s: seq<T>, matches: T -> bool, x: T, k: nat)
    requires k < |s| && matches(s[k])
    requires forall i :: 0 <= i < |s| && i != k ==> !matches(s[i])
    ensures ReplaceWhere(s, matches, x) == s[k := x]
  {
  }

  /** Filtering keeps a list duplicate-free. */
  lemma {:induction false} FilterNoDups<T>(s: seq<T>, p: T -> bool)
    requires NoDups(s)
    ensures NoDups(Filter(s, p))
  {
    if s != [] {
      FilterNoDups(s[1..], p);
      var rest := Filter(s[1..], p);
      if p(s[0]) {
        assert s[0] !in s[1..];
        assert s[0] !in rest;
        var r := [s[0]] + rest;
        forall i, j | 0 <= i < j < |r| ensures r[i] != r[j] {
          assert r[j] == rest[j - 1];
          if i > 0 {
            assert r[i] == rest[i - 1];
          }
        }
      }
    }
  }

  lemma {:induction false} SubseqReflexive<T>(s: seq<T>)
    ensures IsSubseq(s, s)
  {
    if s != [] {
      SubseqReflexive(s[1..]);
    }
  }

  /** Every element of `s` occurs in `Dedup(s)` and conversely. */
  lemma DedupMembers<T>(s: seq<T>)
    ensures forall x :: x in Dedup(s) <==> x in s
  {
    var d := Dedup(s);
    forall x ensures x in d <==> x in s {
      if x in s {
        var i :| 0 <= i < |s| && s[i] == x;
      }
      if x in d {
        var i :| 0 <= i < |d| && d[i] == x;
      }
    }
  }

  /** Nothing survives a filter no element satisfies. */
  lemma {:induction false} FilterNoneKept<T>(s: seq<T>, p: T -> bool)
    requires forall i :: 0 <= i < |s| ==> !p(s[i])
    ensures Filter(s, p) == []
  {
    if s != [] {
      FilterNoneKept(s[1..], p);
    }
  }

  /** Filtering a sequence built from a head and a tail. */
  lemma FilterCons<T>(x: T, s: seq<T>, p: T -> bool)
    ensures Filter([x] + s, p) == if p(x) then [x] + Filter(s, p) else Filter(s, p)
  {
    assert ([x] + s)[1..] == s;
  }

  /** A prefix the filter rejects can be dropped first. */
  lemma {:induction false} FilterDropPrefix<T>(s: seq<T>, k: nat, p: T -> bool)
    requires k <= |s|
    requires forall i :: 0 <= i < k ==> !p(s[i])
    ensures Filter(s, p) == Filter(s[k..], p)
  {
    var a, b := s[..k], s[k..];
    assert s == a + b;
    FilterAppend(a, b, p);
    forall i | 0 <= i < |a| ensures !p(a[i]) {
      assert a[i] == s[i];
    }
    FilterNoneKept(a, p);
    assert Filter(s, p) == [] + Filter(b, p) == Filter(b, p);
  }

  /** A suffix the filter rejects can be dropped first. */
  lemma {:induction false} FilterDropSuffix<T>(s: seq<T>, k: nat, p: T -> bool)
    requires k <= |s|
    requires forall i :: k <= i < |s| ==> !p(s[i])
    ensures Filter(s, p) == Filter(s[..k], p)
  {
    var a, b := s[..k], s[k..];
    assert s == a + b;
    FilterAppend(a, b, p);
    forall i | 0 <= i < |b| ensures !p(b[i]) {
      assert b[i] == s[k + i];
    }
    FilterNoneKept(b, p);
    assert Filter(s, p) == Filter(a, p) + [] == Filter(a, p);
  }

  /** A filter followed by a stricter one is the stricter one alone. */
  lemma {:induction false} FilterThenStricter<T>(s: seq<T>, p: T -> bool, q: T -> bool)
    requires forall i :: 0 <= i < |s| && q(s[i]) ==> p(s[i])
    ensures Filter(Filter(s, p), q) == Filter(s, q)
  {
    if s != [] {
      FilterThenStricter(s[1..], p, q);
      if p(s[0]) {
        FilterCons(s[0], Filter(s[1..], p), q);
      }
    }
  }

  /** What holds of every element the filter accepts holds of the result. */
  lemma FilterKeepsProperty<T>(s: seq<T>, p: T -> bool, q: T -> bool)
    requires forall i :: 0 <= i < |s| && p(s[i]) ==> q(s[i])
    ensures forall i :: 0 <= i < |Filter(s, p)| ==> q(Filter(s, p)[i])
  {
    var r := Filter(s, p);
    forall i | 0 <= i < |r| ensures q(r[i]) {
      var k :| 0 <= k < |s| && s[k] == r[i];
    }
  }
}
