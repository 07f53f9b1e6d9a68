/**
 * The order in which the views list tree items: `a.label.localeCompare(b.label)`
 * handed to `Array.prototype.sort`. Locale collation is replaced by the
 * lexicographic order on characters; the proofs below use only that it is a
 * total order, which is all the sort relies on.
 */
module Collation {

  /** `a` sorts no later than `b`. */
  predicate LabelLeq(a: string, b: string)
  {
    if a == [] then true
    else if b == [] then false
    else if a[0] != b[0] then a[0] < b[0]
    else LabelLeq(a[1..], b[1..])
  }

  lemma {:induction false} LabelLeqReflexive(a: string)
    ensures LabelLeq(a, a)
  {
    if a != [] {
      LabelLeqReflexive(a[1..]);
    }
  }

  lemma {:induction false} LabelLeqTotal(a: string, b: string)
    ensures LabelLeq(a, b) || LabelLeq(b, a)
  {
    if a != [] && b != [] && a[0] == b[0] {
      LabelLeqTotal(a[1..], b[1..]);
    }
  }

  lemma {:induction false} LabelLeqTransitive(a: string, b: string, c: string)
    requires LabelLeq(a, b) && LabelLeq(b, c)
    ensures LabelLeq(a, c)
  {
    if a != [] && b != [] && c != [] && a[0] == b[0] && b[0] == c[0] {
      LabelLeqTransitive(a[1..], b[1..], c[1..]);
    }
  }

  lemma {:induction false} LabelLeqAntisymmetric(a: string, b: string)
    requires LabelLeq(a, b) && LabelLeq(b, a)
    ensures a == b
  {
    if a != [] && b != [] {
      LabelLeqAntisymmetric(a[1..], b[1..]);
      assert a == [a[0]] + a[1..] && b == [b[0]] + b[1..];
    }
  }

  /** The elements of `s` are in label order. */
  ghost predicate SortedBy<T>(s: seq<T>, key: T -> string)
  {
    forall i, j :: 0 <= i < j < |s| ==> LabelLeq(key(s[i]), key(s[j]))
  }

  /** Places `x` before the first element of the sorted `s` whose label is not below it. */
  function Insert<T>(x: T, s: seq<T>, key: T -> string): (r: seq<T>)
    requires SortedBy(s, key)
    ensures SortedBy(r, key)
    ensures multiset(r) == multiset(s) + multiset{x}
    ensures |r| == |s| + 1
  {
    if s == [] then [x]
    else if LabelLeq(key(x), key(s[0])) then
      InsertFront(x, s, key);
      [x] + s
    else
      var rest := Insert(x, s[1..], key);
      InsertAfterHead(x, s, rest, key);
      [s[0]] + rest
  }

  /** An element whose label is not above the first of a sorted sequence may go in front. */
  lemma InsertFront<T>(x: T, s: seq<T>, key: T -> string)
    requires SortedBy(s, key) && s != [] && LabelLeq(key(x), key(s[0]))
    ensures SortedBy([x] + s, key)
  {
    forall j | 0 <= j < |s| ensures LabelLeq(key(x), key(s[j])) {
      if j > 0 { LabelLeqTransitive(key(x), key(s[0]), key(s[j])); }
    }
  }

  /** The head of a sorted sequence may precede the insertion of a later-sorting element into its tail. */
  lemma InsertAfterHead<T>(x: T, s: seq<T>, rest: seq<T>, key: T -> string)
    requires SortedBy(s, key) && s != [] && !LabelLeq(key(x), key(s[0]))
    requires SortedBy(rest, key) && multiset(rest) == multiset(s[1..]) + multiset{x}
    ensures SortedBy([s[0]] + rest, key)
    ensures multiset([s[0]] + rest) == multiset(s) + multiset{x}
  {
    LabelLeqTotal(key(x), key(s[0]));
    forall y | y in rest ensures LabelLeq(key(s[0]), key(y)) {
      assert y in multiset(rest);
      if y != x {
        assert y in multiset(s[1..]);
        var j :| 0 <= j < |s[1..]| && s[1..][j] == y;
        assert s[j + 1] == y;
      }
    }
    assert s == [s[0]] + s[1..];
  }

  /**
   * What `items.sort((a, b) => a.label.localeCompare(b.label))` leaves in
   * `items`: an insertion sort, which, like the library's sort, keeps
   * elements with equal labels in their original order.
   */
  function SortBy<T>(s: seq<T>, key: T -> string): (r: seq<T>)
    ensures SortedBy(r, key)
    ensures multiset(r) == multiset(s)
    ensures |r| == |s|
  {
    if s == [] then []
    else
      assert s == [s[0]] + s[1..];
      Insert(s[0], SortBy(s[1..], key), key)
  }

  /** Sorting neither adds nor drops elements. */
  lemma SortByMembers<T>(s: seq<T>, key: T -> string)
    ensures forall i :: 0 <= i < |SortBy(s, key)| ==> SortBy(s, key)[i] in s
  {
    var r := SortBy(s, key);
    forall i | 0 <= i < |r| ensures r[i] in s {
      assert r[i] in multiset(r);
    }
  }

  /** Sorting an already sorted sequence changes nothing. */
  lemma {:induction false} SortBySorted<T>(s: seq<T>, key: T -> string)
    requires SortedBy(s, key)
    ensures SortBy(s, key) == s
  {
    if s != [] {
      assert SortedBy(s[1..], key) by {
        forall i, j | 0 <= i < j < |s[1..]| ensures LabelLeq(key(s[1..][i]), key(s[1..][j])) {
          assert s[1..][i] == s[i + 1] && s[1..][j] == s[j + 1];
        }
      }
      SortBySorted(s[1..], key);
      assert s[1..] != [] ==> LabelLeq(key(s[0]), key(s[1..][0]));
    }
  }

  /** Sorting is idempotent: the getters that sort in place may be called any number of times. */
  lemma SortByIdempotent<T>(s: seq<T>, key: T -> string)
    ensures SortBy(SortBy(s, key), key) == SortBy(s, key)
  {
    SortBySorted(SortBy(s, key), key);
  }

  /** `f` applied to every element of `s`, in order. */
  function MapSeq<A, B>(s: seq<A>, f: A -> B): (r: seq<B>)
    ensures |r| == |s|
    ensures forall i :: 0 <= i < |s| ==> r[i] == f(s[i])
  {
    if s == [] then [] else [f(s[0])] + MapSeq(s[1..], f)
  }

  /** A sequence whose image under `f` keeps every label is sorted exactly when its image is. */
  lemma MapSorted<A, B>(s: seq<A>, f: A -> B, ka: A -> string, kb: B -> string)
    requires forall x :: x in s ==> kb(f(x)) == ka(x)
    requires SortedBy(s, ka)
    ensures SortedBy(MapSeq(s, f), kb)
  {
    var r := MapSeq(s, f);
    forall i, j | 0 <= i < j < |r| ensures LabelLeq(kb(r[i]), kb(r[j])) {
      assert s[i] in s && s[j] in s;
    }
  }

  /** Inserting and then mapping is mapping and then inserting, when `f` keeps labels. */
  lemma {:induction false} InsertMap<A, B>(x: A, s: seq<A>, f: A -> B, ka: A -> string, kb: B -> string)
    requires forall y :: y in [x] + s ==> kb(f(y)) == ka(y)
    requires SortedBy(s, ka) && SortedBy(MapSeq(s, f), kb)
    ensures MapSeq(Insert(x, s, ka), f) == Insert(f(x), MapSeq(s, f), kb)
  {
    if s == [] {
    } else {
      assert s[0] in [x] + s;
      var ms := MapSeq(s, f);
      assert ms[0] == f(s[0]);
      if LabelLeq(ka(x), ka(s[0])) {
        assert Insert(x, s, ka) == [x] + s;
        assert ([x] + s)[1..] == s;
      } else {
        var t := s[1..];
        assert SortedBy(t, ka);
        assert ms[1..] == MapSeq(t, f);
        MapSorted(t, f, ka, kb);
        InsertMap(x, t, f, ka, kb);
        var it := Insert(x, t, ka);
        assert Insert(x, s, ka) == [s[0]] + it;
        assert ([s[0]] + it)[1..] == it;
      }
    }
  }

  /** Sorting commutes with a map that keeps labels: the sort only looks at labels. */
  lemma {:induction false} SortByMap<A, B>(s: seq<A>, f: A -> B, ka: A -> string, kb: B -> string)
    requires forall x :: x in s ==> kb(f(x)) == ka(x)
    ensures MapSeq(SortBy(s, ka), f) == SortBy(MapSeq(s, f), kb)
  {
    if s != [] {
      var t := s[1..];
      assert forall x :: x in t ==> x in s;
      SortByMap(t, f, ka, kb);
      var st := SortBy(t, ka);
      assert forall y :: y in st ==> y in multiset(t);
      MapSorted(st, f, ka, kb);
      InsertMap(s[0], st, f, ka, kb);
      assert MapSeq(s, f)[1..] == MapSeq(t, f);
    }
  }

  function PairFst<A, B>(p: (A, B)): A { p.0 }
  function PairSnd<A, B>(p: (A, B)): B { p.1 }

  /**
   * Sorting pairs by the label of their first component sorts both
   * components, when the two components carry the same label.
   */
  lemma SortPairs<A, B>(t: seq<(A, B)>, kp: ((A, B)) -> string, ka: A -> string, kb: B -> string)
    requires forall p :: p in t ==> kp(p) == ka(p.0) && kb(p.1) == ka(p.0)
    ensures MapSeq(SortBy(t, kp), PairFst) == SortBy(MapSeq(t, PairFst), ka)
    ensures MapSeq(SortBy(t, kp), PairSnd) == SortBy(MapSeq(t, PairSnd), kb)
    ensures forall i :: 0 <= i < |SortBy(t, kp)| ==> SortBy(t, kp)[i] in t
  {
    SortByMap(t, PairFst, kp, ka);
    SortByMap(t, PairSnd, kp, kb);
    SortByMembers(t, kp);
  }

  /** The elements of `s` are pairwise distinct. */
  ghost predicate NoDup<T>(s: seq<T>)
  {
    forall i, j :: 0 <= i < j < |s| ==> s[i] != s[j]
  }

  /** The number of times `x` occurs in `s`. */
  function Count<T(==)>(s: seq<T>, x: T): (n: nat)
    ensures n == multiset(s)[x]
  {
    if s == [] then 0
    else
      assert s == s[..|s| - 1] + [s[|s| - 1]];
      Count(s[..|s| - 1], x) + (if s[|s| - 1] == x then 1 else 0)
  }

  /** In a sequence without repetitions every member occurs exactly once. */
  lemma {:induction false} NoDupCount<T>(s: seq<T>, x: T)
    requires NoDup(s) && x in s
    ensures Count(s, x) == 1
  {
    var k := |s| - 1;
    assert s == s[..k] + [s[k]];
    if s[k] == x {
      assert x !in s[..k];
      assert multiset(s[..k])[x] == 0;
    } else {
      assert NoDup(s[..k]);
      NoDupCount(s[..k], x);
    }
  }

  /** An element found at two positions occurs at least twice. */
  lemma TwoOccurrences<T>(s: seq<T>, i: nat, j: nat)
    requires i < j < |s| && s[i] == s[j]
    ensures multiset(s)[s[i]] >= 2
  {
    assert s == s[..j] + [s[j]] + s[j + 1..];
    assert s[..j][i] == s[i];
    assert s[i] in multiset(s[..j]);
  }

  /** Sorting keeps the elements distinct. */
  lemma SortByNoDup<T>(s: seq<T>, key: T -> string)
    requires NoDup(s)
    ensures NoDup(SortBy(s, key))
  {
    var r := SortBy(s, key);
    forall i, j | 0 <= i < j < |r| ensures r[i] != r[j] {
      if r[i] == r[j] {
        TwoOccurrences(r, i, j);
        assert r[i] in s by { assert r[i] in multiset(r); }
        NoDupCount(s, r[i]);
      }
    }
  }
}
