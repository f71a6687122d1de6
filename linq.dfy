/** The sequence operators of System.Linq that the generation step uses
    (Take, Skip, Distinct), on immutable sequences. */
module Linq {

  /** No element occurs twice. */
  predicate NoDups<T(==)>(s: seq<T>)
  {
    forall a, b :: 0 <= a < b < |s| ==> s[a] != s[b]
  }

  /** Appending distinct new elements keeps a sequence free of duplicates. */
  lemma NoDupsAppend<T>(a: seq<T>, b: seq<T>)
    requires NoDups(b) && forall k :: 0 <= k < |b| ==> b[k] !in a
    ensures NoDups(a) ==> NoDups(a + b)
  {
    if NoDups(a) {
      forall i, j | 0 <= i < j < |a + b| ensures (a + b)[i] != (a + b)[j] {
        if j >= |a| && i < |a| {
          assert (a + b)[j] == b[j - |a|] && (a + b)[i] == a[i];
        }
      }
    }
  }

  /** The set of elements of a sequence. */
  function Elems<T>(s: seq<T>): set<T>
  {
    set x | x in s
  }

  /** Enumerable.Take: the first n elements, or all of them when there are fewer. */
  function Take<T>(s: seq<T>, n: nat): (r: seq<T>)
    ensures |r| == if n <= |s| then n else |s|
    ensures r <= s
  {
    s[..if n <= |s| then n else |s|]
  }

  /** Enumerable.Skip: what is left after the first n elements. */
  function Skip<T>(s: seq<T>, n: nat): (r: seq<T>)
    ensures Take(s, n) + r == s
  {
    s[if n <= |s| then n else |s|..]
  }

  /** Position of the first occurrence of x in s. */
  function FirstIndex<T(==)>(s: seq<T>, x: T): (i: nat)
    requires x in s
    ensures i < |s| && s[i] == x && x !in s[..i]
  {
    if s[0] == x then 0 else 1 + FirstIndex(s[1..], x)
  }

  /** Enumerable.Distinct as it streams: an element is yielded when it is not
      yet in the set of elements already seen, and then added to that set. */
  function DistinctFrom<T(==)>(s: seq<T>, seen: set<T>): (r: seq<T>)
    ensures |r| <= |s|
  {
    if s == [] then []
    else if s[0] in seen then DistinctFrom(s[1..], seen)
    else [s[0]] + DistinctFrom(s[1..], seen + {s[0]})
  }

  /** Enumerable.Distinct, starting with nothing seen: every element of the
      input, once. */
  function Distinct<T(==, !new)>(s: seq<T>): (r: seq<T>)
    ensures NoDups(r) && forall x :: x in r <==> x in s
  {
    DistinctFromYields(s, {});
    DistinctFrom(s, {})
  }

  /** What Distinct yields: no element twice, and exactly the elements of
      the input that had not been seen before. */
  lemma {:induction false} DistinctFromYields<T(!new)>(s: seq<T>, seen: set<T>)
    ensures var r := DistinctFrom(s, seen);
      && NoDups(r)
      && forall x :: x in r <==> x in s && x !in seen
  {
    if s != [] {
      if s[0] in seen {
        DistinctFromYields(s[1..], seen);
      } else {
        DistinctFromYields(s[1..], seen + {s[0]});
      }
      assert forall x :: x in s <==> x == s[0] || x in s[1..];
    }
  }

  /** The elements of q that are not in excl, in their order in q. */
  function Without<T(==, !new)>(q: seq<T>, excl: set<T>): (r: seq<T>)
    ensures forall x :: x in r <==> x in q && x !in excl
  {
    if q == [] then []
    else (if q[0] in excl then [] else [q[0]]) + Without(q[1..], excl)
  }

  /** Past the head, first positions move one place. */
  lemma FirstIndexTail<T>(s: seq<T>, y: T)
    requires s != [] && y in s[1..] && y != s[0]
    ensures FirstIndex(s, y) == 1 + FirstIndex(s[1..], y)
  {
  }

  /** The elements of r occur in s, and in the order of their first occurrences in s. */
  predicate InFirstOccurrenceOrder<T(==)>(s: seq<T>, r: seq<T>)
  {
    && (forall k :: 0 <= k < |r| ==> r[k] in s)
    && forall a, b :: 0 <= a < b < |r| ==> FirstIndex(s, r[a]) < FirstIndex(s, r[b])
  }

  /** Distinct keeps each element once, at the place of its first occurrence:
      the elements it yields appear in the order of their first occurrences. */
  lemma {:induction false} DistinctFromFirstOccurrenceOrder<T(!new)>(s: seq<T>, seen: set<T>)
    ensures InFirstOccurrenceOrder(s, DistinctFrom(s, seen))
  {
    if s != [] {
      var t := s[1..];
      var r := DistinctFrom(s, seen);
      if s[0] in seen {
        DistinctFromFirstOccurrenceOrder(t, seen);
        DistinctFromYields(t, seen);
        assert r == DistinctFrom(t, seen);
        forall a, b | 0 <= a < b < |r| ensures FirstIndex(s, r[a]) < FirstIndex(s, r[b]) {
          FirstIndexTail(s, r[a]);
          FirstIndexTail(s, r[b]);
        }
      } else {
        var r' := DistinctFrom(t, seen + {s[0]});
        DistinctFromFirstOccurrenceOrder(t, seen + {s[0]});
        DistinctFromYields(t, seen + {s[0]});
        assert r == [s[0]] + r';
        forall a, b | 0 <= a < b < |r| ensures FirstIndex(s, r[a]) < FirstIndex(s, r[b]) {
          assert r[b] == r'[b - 1];
          FirstIndexTail(s, r[b]);
          if a > 0 {
            assert r[a] == r'[a - 1];
            FirstIndexTail(s, r[a]);
            assert InFirstOccurrenceOrder(t, r');
            assert FirstIndex(t, r'[a - 1]) < FirstIndex(t, r'[b - 1]);
          }
        }
      }
    }
  }

  /** Distinct of the whole input: no duplicates, every input element kept,
      in the order of first occurrence. */
  lemma DistinctIsFirstOccurrenceDedup<T(!new)>(s: seq<T>)
    ensures var r := Distinct(s);
      && NoDups(r)
      && (forall x :: x in r <==> x in s)
      && InFirstOccurrenceOrder(s, r)
  {
    DistinctFromYields(s, {});
    DistinctFromFirstOccurrenceOrder(s, {});
  }

  /** A duplicate-free prefix that shares nothing with what was seen passes
      through Distinct unchanged; it is then part of what has been seen. */
  lemma {:induction false} DistinctFromKeepsPrefix<T(!new)>(p: seq<T>, q: seq<T>, seen: set<T>)
    requires NoDups(p)
    requires forall x :: x in p ==> x !in seen
    ensures DistinctFrom(p + q, seen) == p + DistinctFrom(q, seen + Elems(p))
  {
    if p == [] {
      assert p + q == q;
      assert seen + Elems(p) == seen;
    } else {
      assert (p + q)[0] == p[0];
      assert (p + q)[1..] == p[1..] + q;
      assert p[0] !in p[1..];
      DistinctFromKeepsPrefix(p[1..], q, seen + {p[0]});
      assert seen + {p[0]} + Elems(p[1..]) == seen + Elems(p);
    }
  }

  /** Excluding an element that does not occur changes nothing. */
  lemma {:induction false} WithoutAbsent<T(!new)>(q: seq<T>, excl: set<T>, x: T)
    requires x !in q
    ensures Without(q, excl + {x}) == Without(q, excl)
  {
    if q != [] {
      WithoutAbsent(q[1..], excl, x);
    }
  }

  /** On a duplicate-free input, Distinct only drops what was already seen. */
  lemma {:induction false} DistinctFromOfNoDups<T(!new)>(q: seq<T>, seen: set<T>)
    requires NoDups(q)
    ensures DistinctFrom(q, seen) == Without(q, seen)
  {
    if q != [] {
      assert NoDups(q[1..]);
      if q[0] in seen {
        DistinctFromOfNoDups(q[1..], seen);
      } else {
        DistinctFromOfNoDups(q[1..], seen + {q[0]});
        WithoutAbsent(q[1..], seen, q[0]);
      }
    }
  }
}
