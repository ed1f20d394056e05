/**
 * Filtering and stable sorting of sequences: the model of SQL "WHERE ... ORDER BY"
 * on the store side and of Array.prototype.filter / sort on the web side.
 */
module Sequences {

  /** Keeps the elements that satisfy keep, in their original order. */
  function Filter<T(!new)>(s: seq<T>, keep: T -> bool): (r: seq<T>)
    ensures |r| <= |s|
    ensures forall i :: 0 <= i < |r| ==> keep(r[i])
    ensures forall x :: x in r <==> x in s && keep(x)
    ensures multiset(r) <= multiset(s)
  {
    if s == [] then []
    else
      assert s == [s[0]] + s[1..];
      (if keep(s[0]) then [s[0]] else []) + Filter(s[1..], keep)
  }

  /** Filtering looks at the first element, then at the rest. */
  lemma FilterCons<T(!new)>(x: T, s: seq<T>, keep: T -> bool)
    ensures Filter([x] + s, keep) == (if keep(x) then [x] else []) + Filter(s, keep)
  {
    assert ([x] + s)[1..] == s;
  }

  /** Filtering distributes over concatenation, so it keeps the input order. */
  lemma {:induction false} FilterAppend<T(!new)>(a: seq<T>, b: seq<T>, keep: T -> bool)
    ensures Filter(a + b, keep) == Filter(a, keep) + Filter(b, keep)
  {
    if a == [] {
      assert a + b == b;
    } else {
      assert (a + b)[0] == a[0];
      assert (a + b)[1..] == a[1..] + b;
      FilterAppend(a[1..], b, keep);
    }
  }

  /** Applies f to every element. */
  function Map<T, U>(s: seq<T>, f: T -> U): (r: seq<U>)
    ensures |r| == |s|
    ensures forall i :: 0 <= i < |s| ==> r[i] == f(s[i])
  {
    seq(|s|, i requires 0 <= i < |s| => f(s[i]))
  }

  lemma MapAppend<T, U>(a: seq<T>, b: seq<T>, f: T -> U)
    ensures Map(a + b, f) == Map(a, f) + Map(b, f)
  {
  }

  /** The number of elements that satisfy p. */
  function Count<T(!new)>(s: seq<T>, p: T -> bool): nat {
    |Filter(s, p)|
  }

  /** Every element is counted exactly once: either by p or by its complement np. */
  lemma {:induction false} CountSplits<T(!new)>(s: seq<T>, p: T -> bool, np: T -> bool)
    requires forall x :: np(x) == !p(x)
    ensures Count(s, p) + Count(s, np) == |s|
  {
    if s != [] {
      CountSplits(s[1..], p, np);
    }
  }

  /** Filtering twice is filtering once by both conditions (pq). */
  lemma {:induction false} FilterFilter<T(!new)>(s: seq<T>, p: T -> bool, q: T -> bool, pq: T -> bool)
    requires forall x :: pq(x) == (p(x) && q(x))
    ensures Filter(Filter(s, p), q) == Filter(s, pq)
  {
    if s != [] {
      FilterFilter(s[1..], p, q, pq);
      var t := Filter(s[1..], p);
      if p(s[0]) {
        assert Filter(s, p) == [s[0]] + t;
        assert Filter([s[0]] + t, q) == (if q(s[0]) then [s[0]] else []) + Filter(t, q) by {
          assert ([s[0]] + t)[1..] == t;
        }
      } else {
        assert Filter(s, p) == t;
      }
    }
  }

  /** Filtering by a condition every element meets keeps everything. */
  lemma {:induction false} FilterAll<T(!new)>(s: seq<T>, p: T -> bool)
    requires forall i :: 0 <= i < |s| ==> p(s[i])
    ensures Filter(s, p) == s
  {
    if s != [] {
      FilterAll(s[1..], p);
    }
  }

  /** Filtering agrees for conditions that agree on every element. */
  lemma {:induction false} FilterSame<T(!new)>(s: seq<T>, p: T -> bool, q: T -> bool)
    requires forall i :: 0 <= i < |s| ==> p(s[i]) == q(s[i])
    ensures Filter(s, p) == Filter(s, q)
  {
    if s != [] {
      FilterSame(s[1..], p, q);
    }
  }

  /** No element occurs twice. */
  predicate NoDup<T(==)>(s: seq<T>) {
    forall i, j :: 0 <= i < j < |s| ==> s[i] != s[j]
  }

  /** le is total (hence reflexive) and transitive: a valid sort comparator. */
  ghost predicate TotalPreorder<T(!new)>(le: (T, T) -> bool) {
    && (forall x, y :: le(x, y) || le(y, x))
    && (forall x, y, z :: le(x, y) && le(y, z) ==> le(x, z))
  }

  /** Every element may precede every later one. */
  ghost predicate Sorted<T>(s: seq<T>, le: (T, T) -> bool) {
    forall i, j :: 0 <= i < j < |s| ==> le(s[i], s[j])
  }

  /** Puts x in front of the first element it may precede. */
  function Insert<T>(x: T, s: seq<T>, le: (T, T) -> bool): (r: seq<T>)
    ensures multiset(r) == multiset(s) + multiset{x}
    ensures |r| == |s| + 1
  {
    if s == [] then [x]
    else if le(x, s[0]) then [x] + s
    else
      assert s == [s[0]] + s[1..];
      [s[0]] + Insert(x, s[1..], le)
  }

  /**
   * Stable insertion sort: an element is inserted in front of the equal
   * elements that follow it in the input, so equal elements keep their order.
   */
  function Sort<T>(s: seq<T>, le: (T, T) -> bool): (r: seq<T>)
    ensures multiset(r) == multiset(s)
    ensures |r| == |s|
  {
    if s == [] then []
    else
      assert s == [s[0]] + s[1..];
      Insert(s[0], Sort(s[1..], le), le)
  }

  /** Sorting keeps exactly the elements of the input. */
  lemma SortSameElements<T>(s: seq<T>, le: (T, T) -> bool)
    ensures forall x :: x in Sort(s, le) <==> x in s
  {
    var r := Sort(s, le);
    forall x ensures x in r <==> x in s {
      assert x in r <==> x in multiset(r);
      assert x in s <==> x in multiset(s);
    }
  }

  lemma {:induction false} InsertSorted<T(!new)>(x: T, s: seq<T>, le: (T, T) -> bool)
    requires TotalPreorder(le)
    requires Sorted(s, le)
    ensures Sorted(Insert(x, s, le), le)
  {
    if s != [] && !le(x, s[0]) {
      var t := s[1..];
      InsertSorted(x, t, le);
      var ins := Insert(x, t, le);
      forall k | 0 <= k < |ins| ensures le(s[0], ins[k]) {
        assert ins[k] in multiset(ins);
        if ins[k] != x {
          assert ins[k] in multiset(t);
          assert ins[k] in t;
        }
      }
    }
  }

  /** The sort orders its result. */
  lemma {:induction false} SortSorted<T(!new)>(s: seq<T>, le: (T, T) -> bool)
    requires TotalPreorder(le)
    ensures Sorted(Sort(s, le), le)
  {
    if s != [] {
      SortSorted(s[1..], le);
      InsertSorted(s[0], Sort(s[1..], le), le);
    }
  }

  lemma NoDupCons<T>(x: T, s: seq<T>)
    requires NoDup(s) && x !in s
    ensures NoDup([x] + s)
  {
    forall i, j | 0 <= i < j < |[x] + s| ensures ([x] + s)[i] != ([x] + s)[j] {
      if i > 0 {
        assert ([x] + s)[i] == s[i - 1];
      }
      assert ([x] + s)[j] == s[j - 1];
    }
  }

  lemma NoDupSnoc<T>(s: seq<T>, x: T)
    requires NoDup(s) && x !in s
    ensures NoDup(s + [x])
  {
    forall i, j | 0 <= i < j < |s + [x]| ensures (s + [x])[i] != (s + [x])[j] {
      assert (s + [x])[i] == s[i];
      if j < |s| {
        assert (s + [x])[j] == s[j];
      }
    }
  }

  lemma {:induction false} InsertNoDup<T>(x: T, s: seq<T>, le: (T, T) -> bool)
    requires NoDup(s) && x !in s
    ensures NoDup(Insert(x, s, le))
  {
    if s == [] {
    } else if le(x, s[0]) {
      NoDupCons(x, s);
    } else {
      var t := s[1..];
      assert NoDup(t) by {
        forall i, j | 0 <= i < j < |t| ensures t[i] != t[j] {
          assert t[i] == s[i + 1] && t[j] == s[j + 1];
        }
      }
      assert s[0] !in t by {
        forall k | 0 <= k < |t| ensures t[k] != s[0] {
          assert t[k] == s[k + 1];
        }
      }
      InsertNoDup(x, t, le);
      var ins := Insert(x, t, le);
      assert s[0] !in multiset(ins);
      NoDupCons(s[0], ins);
    }
  }

  /** Sorting a duplicate-free sequence leaves it duplicate-free. */
  lemma {:induction false} SortNoDup<T>(s: seq<T>, le: (T, T) -> bool)
    requires NoDup(s)
    ensures NoDup(Sort(s, le))
  {
    if s != [] {
      var t := s[1..];
      assert NoDup(t) by {
        forall i, j | 0 <= i < j < |t| ensures t[i] != t[j] {
          assert t[i] == s[i + 1] && t[j] == s[j + 1];
        }
      }
      assert s[0] !in t by {
        forall k | 0 <= k < |t| ensures t[k] != s[0] {
          assert t[k] == s[k + 1];
        }
      }
      SortNoDup(t, le);
      assert s[0] !in multiset(Sort(t, le));
      InsertNoDup(s[0], Sort(t, le), le);
    }
  }

  /** Different keys hold different values. */
  ghost predicate Injective<K, V>(m: map<K, V>) {
    forall k1, k2 :: k1 in m && k2 in m && m[k1] == m[k2] ==> k1 == k2
  }

  /** items holds, once each, the values under the keys in done that satisfy keep. */
  ghost predicate CollectedFrom<K, V>(m: map<K, V>, keep: V -> bool, done: set<K>, items: seq<V>) {
    && done <= m.Keys
    && (forall x :: x in items ==> exists k :: k in done && m[k] == x && keep(x))
    && (forall k :: k in done && keep(m[k]) ==> m[k] in items)
    && NoDup(items)
  }

  /** Visiting one more key keeps the collection exact. */
  lemma CollectStep<K, V>(m: map<K, V>, keep: V -> bool, done: set<K>, items: seq<V>, k: K)
    requires Injective(m) && CollectedFrom(m, keep, done, items)
    requires k in m && k !in done
    ensures keep(m[k]) ==> CollectedFrom(m, keep, done + {k}, items + [m[k]])
    ensures !keep(m[k]) ==> CollectedFrom(m, keep, done + {k}, items)
  {
    if keep(m[k]) {
      forall x | x in items ensures x != m[k] {
        var k' :| k' in done && m[k'] == x;
      }
      NoDupSnoc(items, m[k]);
    }
  }

  /**
   * The values of m that satisfy keep, each once, in the order the keys happen
   * to be visited (a table scan with a WHERE clause and no ORDER BY).
   */
  method SelectValues<K, V(==)>(m: map<K, V>, keep: V -> bool) returns (items: seq<V>)
    requires Injective(m)
    ensures forall x :: x in items <==> x in m.Values && keep(x)
    ensures NoDup(items)
  {
    var remaining := m.Keys;
    ghost var done: set<K> := {};
    items := [];
    while remaining != {}
      invariant remaining + done == m.Keys && remaining !! done
      invariant CollectedFrom(m, keep, done, items)
      decreases remaining
    {
      var k :| k in remaining;
      CollectStep(m, keep, done, items, k);
      assert (remaining - {k}) + (done + {k}) == m.Keys;
      if keep(m[k]) {
        items := items + [m[k]];
      }
      remaining := remaining - {k};
      done := done + {k};
    }
    forall x | x in m.Values && keep(x) ensures x in items {
      var k :| k in m && m[k] == x;
    }
    forall x | x in items ensures x in m.Values {
      var k :| k in done && m[k] == x;
    }
  }
}
