/**
 Orders and stable sorting shared by the modules that rank things: Python compares strings by
 code points and sorts stably.
 */
module Ordering {

  /** Lexicographic order on strings. */
  predicate LexLeq(a: string, b: string) {
    a == "" || (b != "" && (a[0] < b[0] || (a[0] == b[0] && LexLeq(a[1..], b[1..]))))
  }

  lemma {:induction false} LexTotal(a: string, b: string)
    ensures LexLeq(a, b) || LexLeq(b, a)
  {
    if a != "" && b != "" && a[0] == b[0] { LexTotal(a[1..], b[1..]); }
  }

  lemma {:induction false} LexTransitive(a: string, b: string, c: string)
    requires LexLeq(a, b) && LexLeq(b, c)
    ensures LexLeq(a, c)
  {
    if a != "" && a[0] == b[0] && b[0] == c[0] { LexTransitive(a[1..], b[1..], c[1..]); }
  }

  lemma {:induction false} LexAntisymmetric(a: string, b: string)
    requires LexLeq(a, b) && LexLeq(b, a)
    ensures a == b
  {
    if a != "" {
      LexAntisymmetric(a[1..], b[1..]);
      assert a == [a[0]] + a[1..] && b == [b[0]] + b[1..];
    }
  }

  /** What that means: the one is a prefix of the other, or has the smaller character where they first differ. */
  lemma {:induction false} LexExactly(a: string, b: string)
    ensures LexLeq(a, b) <==> a <= b || exists k :: 0 <= k < |a| && k < |b| && a[..k] == b[..k] && a[k] < b[k]
  {
    if a != "" && b != "" && a[0] == b[0] {
      LexExactly(a[1..], b[1..]);
      assert a == [a[0]] + a[1..] && b == [b[0]] + b[1..];
      if k :| 0 <= k < |a[1..]| && k < |b[1..]| && a[1..][..k] == b[1..][..k] && a[1..][k] < b[1..][k] {
        assert a[..k + 1] == [a[0]] + a[1..][..k] && b[..k + 1] == [b[0]] + b[1..][..k];
        assert a[k + 1] < b[k + 1];
      }
      if k :| 0 <= k < |a| && k < |b| && a[..k] == b[..k] && a[k] < b[k] {
        assert k > 0 && a[1..][..k - 1] == a[..k][1..] && b[1..][..k - 1] == b[..k][1..];
        assert a[1..][k - 1] < b[1..][k - 1];
      }
    } else if a != "" && b != "" {
      assert a[0] < b[0] ==> a[..0] == b[..0];
    }
  }

  ghost predicate TotalPreorder<T(!new)>(leq: (T, T) -> bool) {
    && (forall x, y :: leq(x, y) || leq(y, x))
    && (forall x, y, z :: leq(x, y) && leq(y, z) ==> leq(x, z))
  }

  ghost predicate SortedBy<T>(leq: (T, T) -> bool, s: seq<T>) {
    forall i, j :: 0 <= i < j < |s| ==> leq(s[i], s[j])
  }

  /** Insert before the first element that is not smaller, so that equal elements keep their order. */
  function Insert<T>(leq: (T, T) -> bool, x: T, s: seq<T>): seq<T> {
    if s == [] then [x]
    else if leq(x, s[0]) then [x] + s
    else [s[0]] + Insert(leq, x, s[1..])
  }

  function Sort<T>(leq: (T, T) -> bool, s: seq<T>): seq<T> {
    if s == [] then [] else Insert(leq, s[0], Sort(leq, s[1..]))
  }

  lemma {:induction false} InsertElements<T>(leq: (T, T) -> bool, x: T, s: seq<T>)
    ensures multiset(Insert(leq, x, s)) == multiset(s) + multiset{x}
  {
    if s != [] {
      assert s == [s[0]] + s[1..];
      if !leq(x, s[0]) { InsertElements(leq, x, s[1..]); }
    }
  }

  /** A head that precedes every element keeps a sorted tail sorted. */
  lemma ConsSorted<T>(leq: (T, T) -> bool, x: T, s: seq<T>)
    requires SortedBy(leq, s) && forall i :: 0 <= i < |s| ==> leq(x, s[i])
    ensures SortedBy(leq, [x] + s)
  {
  }

  lemma {:induction false} InsertSorted<T(!new)>(leq: (T, T) -> bool, x: T, s: seq<T>)
    requires TotalPreorder(leq) && SortedBy(leq, s)
    ensures SortedBy(leq, Insert(leq, x, s))
  {
    if s == [] {
    } else if leq(x, s[0]) {
      forall i | 0 <= i < |s| ensures leq(x, s[i]) { assert i == 0 || leq(s[0], s[i]); }
      ConsSorted(leq, x, s);
    } else {
      var rest := Insert(leq, x, s[1..]);
      assert SortedBy(leq, s[1..]);
      InsertSorted(leq, x, s[1..]);
      InsertElements(leq, x, s[1..]);
      forall i | 0 <= i < |rest| ensures leq(s[0], rest[i]) {
        assert rest[i] in multiset(rest);
        assert rest[i] == x || rest[i] in s[1..];
      }
      ConsSorted(leq, s[0], rest);
    }
  }

  lemma {:induction false} SortPermutes<T>(leq: (T, T) -> bool, s: seq<T>)
    ensures multiset(Sort(leq, s)) == multiset(s)
  {
    if s != [] {
      SortPermutes(leq, s[1..]);
      InsertElements(leq, s[0], Sort(leq, s[1..]));
      assert s == [s[0]] + s[1..];
    }
  }

  lemma {:induction false} SortOrders<T(!new)>(leq: (T, T) -> bool, s: seq<T>)
    requires TotalPreorder(leq)
    ensures SortedBy(leq, Sort(leq, s))
  {
    if s != [] {
      SortOrders(leq, s[1..]);
      InsertSorted(leq, s[0], Sort(leq, s[1..]));
    }
  }

  /** Sorting permutes and orders. */
  lemma SortSpec<T(!new)>(leq: (T, T) -> bool, s: seq<T>)
    requires TotalPreorder(leq)
    ensures multiset(Sort(leq, s)) == multiset(s)
    ensures SortedBy(leq, Sort(leq, s))
    ensures |Sort(leq, s)| == |s|
  {
    SortPermutes(leq, s);
    SortOrders(leq, s);
    assert |multiset(Sort(leq, s))| == |Sort(leq, s)|;
  }

  /** The elements with some property, in order. */
  function Only<T>(p: T -> bool, s: seq<T>): seq<T> {
    if s == [] then [] else if p(s[0]) then [s[0]] + Only(p, s[1..]) else Only(p, s[1..])
  }

  lemma {:induction false} InsertIsStable<T(!new)>(leq: (T, T) -> bool, x: T, s: seq<T>, p: T -> bool)
    requires forall a, b :: p(a) && p(b) ==> leq(a, b)
    ensures Only(p, Insert(leq, x, s)) == if p(x) then [x] + Only(p, s) else Only(p, s)
  {
    if s != [] && leq(x, s[0]) {
      assert ([x] + s)[1..] == s;
    } else if s != [] {
      var rest := Insert(leq, x, s[1..]);
      InsertIsStable(leq, x, s[1..], p);
      assert ([s[0]] + rest)[1..] == rest;
      assert !(p(x) && p(s[0]));
    }
  }

  /** Sorting is stable: elements that may stand in either order keep the one they had. */
  lemma {:induction false} SortIsStable<T(!new)>(leq: (T, T) -> bool, s: seq<T>, p: T -> bool)
    requires forall a, b :: p(a) && p(b) ==> leq(a, b)
    ensures Only(p, Sort(leq, s)) == Only(p, s)
  {
    if s != [] {
      SortIsStable(leq, s[1..], p);
      InsertIsStable(leq, s[0], Sort(leq, s[1..]), p);
    }
  }

  lemma SameElements<T(!new)>(a: seq<T>, b: seq<T>)
    requires multiset(a) == multiset(b)
    ensures forall x :: x in a <==> x in b
    ensures |a| == |b|
  {
    forall x ensures x in a <==> x in b {
      assert x in a <==> x in multiset(a);
      assert x in b <==> x in multiset(b);
    }
    assert |multiset(a)| == |a| && |multiset(b)| == |b|;
  }

  ghost predicate NoRepeats<T>(s: seq<T>) {
    forall i, j :: 0 <= i < j < |s| ==> s[i] != s[j]
  }

  lemma {:induction false} OccursOnce<T>(s: seq<T>, x: T)
    requires NoRepeats(s)
    ensures multiset(s)[x] <= 1
  {
    if s != [] {
      var n := |s| - 1;
      assert s == s[..n] + [s[n]];
      OccursOnce(s[..n], x);
      assert x == s[n] ==> x !in multiset(s[..n]);
    }
  }

  /** Rearranging a sequence without repeats introduces none. */
  lemma RearrangedNoRepeats<T>(s: seq<T>, r: seq<T>)
    requires NoRepeats(s) && multiset(s) == multiset(r)
    ensures NoRepeats(r)
  {
    forall i, j | 0 <= i < j < |r| ensures r[i] != r[j] {
      OccursOnce(s, r[i]);
      assert r == r[..j] + [r[j]] + r[j + 1..];
      assert r[i] in r[..j];
      assert multiset(r)[r[i]] == multiset(r[..j])[r[i]] + multiset([r[j]])[r[i]] + multiset(r[j + 1..])[r[i]];
    }
  }

  /** Cutting an ordered sequence leaves nothing behind the cut that precedes what is before it. */
  lemma CutSorted<T>(leq: (T, T) -> bool, ordered: seq<T>, cut: nat)
    requires SortedBy(leq, ordered) && cut <= |ordered|
    ensures SortedBy(leq, ordered[..cut])
    ensures multiset(ordered) == multiset(ordered[..cut]) + multiset(ordered[cut..])
    ensures forall a, b :: a in ordered[..cut] && b in ordered[cut..] ==> leq(a, b)
  {
    assert ordered == ordered[..cut] + ordered[cut..];
  }
}
