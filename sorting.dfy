/**
 * Python's `sorted(xs, key=k, reverse=True)`: a stable sort by a real key,
 * largest first, ties left in their original order. It is written as an
 * insertion sort; the ascending `sorted(xs, key=k)` is the same sort on the
 * negated key.
 */
module Sorting {

  /** The keys never increase from left to right. */
  predicate NonIncreasing<T>(s: seq<T>, key: T -> real)
  {
    forall i, j :: 0 <= i < j < |s| ==> key(s[i]) >= key(s[j])
  }

  /** The elements of `s` whose key is exactly `v`, in their order in `s`. */
  function WithKey<T>(s: seq<T>, key: T -> real, v: real): (r: seq<T>)
  {
    if s == [] then []
    else (if key(s[0]) == v then [s[0]] else []) + WithKey(s[1..], key, v)
  }

  /** Puts `x` in front of the first element whose key is not larger than its own. */
  function Insert<T>(x: T, s: seq<T>, key: T -> real): (r: seq<T>)
    ensures |r| == |s| + 1
  {
    if s == [] || key(s[0]) <= key(x) then [x] + s
    else [s[0]] + Insert(x, s[1..], key)
  }

  /** The stable descending sort. */
  function SortDesc<T>(s: seq<T>, key: T -> real): (r: seq<T>)
    ensures |r| == |s|
  {
    if s == [] then []
    else Insert(s[0], SortDesc(s[1..], key), key)
  }

  /** Python's `sorted(s, key=key, reverse=descending)`. */
  function SortBy<T>(s: seq<T>, key: T -> real, descending: bool): (r: seq<T>)
    ensures |r| == |s|
  {
    if descending then SortDesc(s, key) else SortDesc(s, x => -key(x))
  }

  /** Where `Insert` puts `x`: after a prefix of strictly larger keys, before the rest. */
  lemma {:induction false} InsertSplit<T>(x: T, s: seq<T>, key: T -> real) returns (m: nat)
    ensures m <= |s|
    ensures Insert(x, s, key) == s[..m] + [x] + s[m..]
    ensures forall j :: 0 <= j < m ==> key(s[j]) > key(x)
    ensures m < |s| ==> key(s[m]) <= key(x)
  {
    if s == [] || key(s[0]) <= key(x) {
      m := 0;
    } else {
      var t := s[1..];
      var m' := InsertSplit(x, t, key);
      m := m' + 1;
      assert s[..m] == [s[0]] + t[..m'];
      assert s[m..] == t[m'..];
      forall j | 0 <= j < m ensures key(s[j]) > key(x) {
        if j > 0 { assert s[j] == t[j - 1]; }
      }
    }
  }

  /** Inserting adds exactly `x` to the elements. */
  lemma {:induction false} InsertPermutes<T>(x: T, s: seq<T>, key: T -> real)
    ensures multiset(Insert(x, s, key)) == multiset(s) + multiset{x}
  {
    if s != [] && key(s[0]) > key(x) {
      InsertPermutes(x, s[1..], key);
      assert s == [s[0]] + s[1..];
    }
  }

  /** The sort is a permutation of its input. */
  lemma {:induction false} SortDescPermutes<T>(s: seq<T>, key: T -> real)
    ensures multiset(SortDesc(s, key)) == multiset(s)
  {
    if s != [] {
      var t := s[1..];
      SortDescPermutes(t, key);
      InsertPermutes(s[0], SortDesc(t, key), key);
      assert s == [s[0]] + t;
    }
  }

  /** `SortBy` is a permutation of its input. */
  lemma SortByPermutes<T>(s: seq<T>, key: T -> real, descending: bool)
    ensures multiset(SortBy(s, key, descending)) == multiset(s)
  {
    if descending {
      SortDescPermutes(s, key);
    } else {
      SortDescPermutes(s, x => -key(x));
    }
  }

  /** `InsertSplit` read position by position. */
  lemma InsertAt<T>(x: T, s: seq<T>, key: T -> real) returns (m: nat)
    ensures m <= |s|
    ensures forall j :: 0 <= j < m ==> key(s[j]) > key(x)
    ensures m < |s| ==> key(s[m]) <= key(x)
    ensures var r := Insert(x, s, key);
      r[m] == x
      && (forall i :: 0 <= i < m ==> r[i] == s[i])
      && (forall i :: m < i <= |s| ==> r[i] == s[i - 1])
  {
    m := InsertSplit(x, s, key);
  }

  lemma {:induction false} InsertKeepsOrder<T>(x: T, s: seq<T>, key: T -> real)
    requires NonIncreasing(s, key)
    ensures NonIncreasing(Insert(x, s, key), key)
  {
    var m := InsertAt(x, s, key);
    var r := Insert(x, s, key);
    forall i, j | 0 <= i < j < |r| ensures key(r[i]) >= key(r[j]) {
      if i == m && j > m {
        assert key(s[j - 1]) <= key(s[m]);
      }
    }
  }

  /** The sort's output is ordered by key, largest first. */
  lemma {:induction false} SortDescOrdered<T>(s: seq<T>, key: T -> real)
    ensures NonIncreasing(SortDesc(s, key), key)
  {
    if s != [] {
      SortDescOrdered(s[1..], key);
      InsertKeepsOrder(s[0], SortDesc(s[1..], key), key);
    }
  }

  /** `SortBy` orders by key, largest first when descending, smallest first otherwise. */
  lemma SortByOrdered<T>(s: seq<T>, key: T -> real, descending: bool)
    ensures var r := SortBy(s, key, descending);
      (descending ==> NonIncreasing(r, key))
      && (!descending ==> forall i, j :: 0 <= i < j < |r| ==> key(r[i]) <= key(r[j]))
  {
    if descending {
      SortDescOrdered(s, key);
    } else {
      var neg := x => -key(x);
      SortDescOrdered(s, neg);
      var r := SortBy(s, key, descending);
      forall i, j | 0 <= i < j < |r| ensures key(r[i]) <= key(r[j]) {
        assert neg(r[i]) >= neg(r[j]);
      }
    }
  }

  lemma {:induction false} WithKeyAppend<T>(a: seq<T>, b: seq<T>, key: T -> real, v: real)
    ensures WithKey(a + b, key, v) == WithKey(a, key, v) + WithKey(b, key, v)
  {
    if a != [] {
      assert (a + b)[1..] == a[1..] + b;
      WithKeyAppend(a[1..], b, key, v);
    } else {
      assert a + b == b;
    }
  }

  /**
   * Among the elements with key `v`, `Insert` puts `x` first: everything it
   * skips over has a key strictly above `x`'s.
   */
  lemma {:induction false} WithKeyInsert<T>(x: T, s: seq<T>, key: T -> real, v: real)
    ensures WithKey(Insert(x, s, key), key, v)
         == (if key(x) == v then [x] else []) + WithKey(s, key, v)
  {
    if s == [] || key(s[0]) <= key(x) {
      assert ([x] + s)[1..] == s;
    } else {
      var t, r := s[1..], Insert(x, s[1..], key);
      WithKeyInsert(x, t, key, v);
      var head := if key(s[0]) == v then [s[0]] else [];
      var wt, wr := WithKey(t, key, v), WithKey(r, key, v);
      assert ([s[0]] + r)[1..] == r;
      assert WithKey(Insert(x, s, key), key, v) == head + wr;
      assert WithKey(s, key, v) == head + wt;
      if key(x) == v {
        assert head == [];
        assert head + wr == wr && head + wt == wt;
      } else {
        assert wr == wt;
        assert [] + (head + wt) == head + wt;
      }
    }
  }

  /** Stability: among equal keys, the sort keeps the input's order. */
  lemma {:induction false} SortDescStable<T>(s: seq<T>, key: T -> real, v: real)
    ensures WithKey(SortDesc(s, key), key, v) == WithKey(s, key, v)
  {
    if s != [] {
      SortDescStable(s[1..], key, v);
      WithKeyInsert(s[0], SortDesc(s[1..], key), key, v);
    }
  }

  /** Negating the key picks out the same elements, at the negated value. */
  lemma {:induction false} WithKeyNegated<T>(s: seq<T>, key: T -> real, neg: T -> real, v: real)
    requires forall x :: neg(x) == -key(x)
    ensures WithKey(s, neg, -v) == WithKey(s, key, v)
  {
    if s != [] {
      WithKeyNegated(s[1..], key, neg, v);
      assert neg(s[0]) == -v <==> key(s[0]) == v;
    }
  }

  /** Stability of `SortBy` in both directions: among equal keys, the input's order. */
  lemma SortByStable<T>(s: seq<T>, key: T -> real, descending: bool, v: real)
    ensures WithKey(SortBy(s, key, descending), key, v) == WithKey(s, key, v)
  {
    if descending {
      SortDescStable(s, key, v);
    } else {
      var neg := x => -key(x);
      var r := SortDesc(s, neg);
      SortDescStable(s, neg, -v);
      WithKeyNegated(s, key, neg, v);
      WithKeyNegated(r, key, neg, v);
    }
  }

  /** Any two elements with equal keys appear in increasing `pos` order. */
  predicate TiesInOrder<T>(r: seq<T>, key: T -> real, pos: T -> int)
  {
    forall k, l :: 0 <= k < l < |r| && key(r[k]) == key(r[l]) ==> pos(r[k]) < pos(r[l])
  }

  lemma InsertKeepsTieOrder<T>(x: T, s: seq<T>, key: T -> real, pos: T -> int)
    requires TiesInOrder(s, key, pos)
    requires forall i :: 0 <= i < |s| ==> pos(x) < pos(s[i])
    ensures TiesInOrder(Insert(x, s, key), key, pos)
  {
    var m := InsertAt(x, s, key);
    var r := Insert(x, s, key);
    forall k, l | 0 <= k < l < |r| ensures key(r[k]) == key(r[l]) ==> pos(r[k]) < pos(r[l]) {
      if l < m {
        assert r[k] == s[k] && r[l] == s[l];
      } else if l == m {
        assert r[k] == s[k];
      } else if k < m {
        assert r[k] == s[k] && r[l] == s[l - 1];
      } else if k == m {
        assert r[l] == s[l - 1];
      } else {
        assert r[k] == s[k - 1] && r[l] == s[l - 1];
      }
    }
  }

  /**
   * Stability seen through a position tag: when `pos` strictly increases
   * along the input, any two outputs with equal keys are still in
   * increasing `pos` order.
   */
  lemma {:induction false} SortDescKeepsTieOrder<T>(s: seq<T>, key: T -> real, pos: T -> int)
    requires forall i, j :: 0 <= i < j < |s| ==> pos(s[i]) < pos(s[j])
    ensures TiesInOrder(SortDesc(s, key), key, pos)
  {
    if s != [] {
      var t := s[1..];
      var r' := SortDesc(t, key);
      SortDescKeepsTieOrder(t, key, pos);
      SortDescPermutes(t, key);
      forall i | 0 <= i < |r'| ensures pos(s[0]) < pos(r'[i]) {
        var y := r'[i];
        assert y in multiset(r');
        assert y in t;
        var j :| 0 <= j < |t| && t[j] == y;
        assert s[j + 1] == y;
      }
      InsertKeepsTieOrder(s[0], r', key, pos);
    }
  }

  /** Sorting a sequence without duplicates yields one without duplicates. */
  lemma {:induction false} SortDescDistinct<T>(s: seq<T>, key: T -> real)
    requires forall i, j :: 0 <= i < j < |s| ==> s[i] != s[j]
    ensures var r := SortDesc(s, key);
      forall i, j :: 0 <= i < j < |r| ==> r[i] != r[j]
  {
    if s != [] {
      var t := s[1..];
      var r' := SortDesc(t, key);
      SortDescDistinct(t, key);
      SortDescPermutes(t, key);
      var m := InsertAt(s[0], r', key);
      var r := SortDesc(s, key);
      assert r == Insert(s[0], r', key);
      assert s[0] !in r' by {
        assert forall j :: 0 <= j < |t| ==> t[j] == s[j + 1];
        assert s[0] !in t;
        assert s[0] !in multiset(t);
      }
      forall i, j | 0 <= i < j < |r| ensures r[i] != r[j] {
        var i' := if i < m then i else i - 1;
        var j' := if j <= m then j else j - 1;
        if i == m {
          assert r[j] == r'[j'];
        } else if j == m {
          assert r[i] == r'[i'];
        } else {
          assert r[i] == r'[i'] && r[j] == r'[j'] && i' < j';
        }
      }
    }
  }
}
