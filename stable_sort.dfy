/** Python's `list.sort(key=..., reverse=True)` on a list of (score, record) pairs: a
    stable sort into descending score order. The library's sort is modelled by a stable
    insertion sort; `StableSortUnique` shows that every stable descending sort yields the
    same sequence, so the choice of algorithm does not matter. */
module StableSort {

  /** Scores never increase from left to right. */
  ghost predicate SortedDesc<T>(s: seq<(int, T)>) {
    forall i, j :: 0 <= i < j < |s| ==> s[i].0 >= s[j].0
  }

  /** The entries of `s` whose score is `k`, in their order in `s`. */
  function WithScore<T>(s: seq<(int, T)>, k: int): (r: seq<(int, T)>)
    ensures |r| <= |s|
  {
    if s == [] then [] else (if s[0].0 == k then [s[0]] else []) + WithScore(s[1..], k)
  }

  /** Inserts `x` before the first entry whose score is not greater than its own, so that
      `x` goes ahead of every entry of equal score. */
  function Insert<T>(x: (int, T), s: seq<(int, T)>): seq<(int, T)> {
    if s == [] || x.0 >= s[0].0 then [x] + s else [s[0]] + Insert(x, s[1..])
  }

  function SortDesc<T>(s: seq<(int, T)>): seq<(int, T)> {
    if s == [] then [] else Insert(s[0], SortDesc(s[1..]))
  }

  lemma {:induction false} WithScoreAppend<T>(a: seq<(int, T)>, b: seq<(int, T)>, k: int)
    ensures WithScore(a + b, k) == WithScore(a, k) + WithScore(b, k)
  {
    if a == [] {
      assert a + b == b;
    } else {
      var head := if a[0].0 == k then [a[0]] else [];
      assert (a + b)[0] == a[0];
      assert (a + b)[1..] == a[1..] + b;
      WithScoreAppend(a[1..], b, k);
      calc {
        WithScore(a + b, k);
        head + WithScore(a[1..] + b, k);
        head + (WithScore(a[1..], k) + WithScore(b, k));
        (head + WithScore(a[1..], k)) + WithScore(b, k);
        WithScore(a, k) + WithScore(b, k);
      }
    }
  }

  lemma {:induction false} WithScoreMember<T>(s: seq<(int, T)>, k: int, x: (int, T))
    requires x in WithScore(s, k)
    ensures x in s && x.0 == k
  {
    if s != [] && !(s[0].0 == k && x == s[0]) {
      WithScoreMember(s[1..], k, x);
    }
  }

  lemma {:induction false} InsertPermutes<T>(x: (int, T), s: seq<(int, T)>)
    ensures multiset(Insert(x, s)) == multiset([x] + s)
  {
    if s != [] && x.0 < s[0].0 {
      InsertPermutes(x, s[1..]);
      assert s == [s[0]] + s[1..];
    }
  }

  lemma {:induction false} InsertSorted<T>(x: (int, T), s: seq<(int, T)>)
    requires SortedDesc(s)
    ensures SortedDesc(Insert(x, s))
  {
    if s != [] && x.0 < s[0].0 {
      var t := Insert(x, s[1..]);
      InsertSorted(x, s[1..]);
      InsertPermutes(x, s[1..]);
      // every entry of t is x or an entry of s[1..], none scoring above s[0]
      forall j | 0 <= j < |t| ensures s[0].0 >= t[j].0 {
        assert t[j] in multiset(t);
        assert t[j] in multiset([x] + s[1..]);
        assert t[j] in [x] + s[1..];
      }
      assert Insert(x, s) == [s[0]] + t;
    }
  }

  lemma {:induction false} InsertStable<T>(x: (int, T), s: seq<(int, T)>, k: int)
    ensures WithScore(Insert(x, s), k) == WithScore([x] + s, k)
  {
    if s != [] && x.0 < s[0].0 {
      var t := Insert(x, s[1..]);
      var hd, wx := WithScore([s[0]], k), WithScore([x], k);
      // x scores below s[0], so at most one of the two can score k
      assert hd == [] || wx == [];
      calc {
        WithScore(Insert(x, s), k);
        { assert Insert(x, s) == [s[0]] + t; WithScoreAppend([s[0]], t, k); }
        hd + WithScore(t, k);
        { InsertStable(x, s[1..], k); WithScoreAppend([x], s[1..], k); }
        hd + (wx + WithScore(s[1..], k));
        wx + (hd + WithScore(s[1..], k));
        { assert s == [s[0]] + s[1..]; WithScoreAppend([s[0]], s[1..], k); }
        wx + WithScore(s, k);
        { WithScoreAppend([x], s, k); }
        WithScore([x] + s, k);
      }
    }
  }

  /** The insertion sort sorts into descending score order, permutes its input, and is
      stable: entries of equal score keep their relative order. */
  lemma {:induction false} SortDescCorrect<T>(s: seq<(int, T)>)
    ensures SortedDesc(SortDesc(s))
    ensures multiset(SortDesc(s)) == multiset(s)
    ensures forall k :: WithScore(SortDesc(s), k) == WithScore(s, k)
  {
    if s != [] {
      SortDescCorrect(s[1..]);
      InsertPermutes(s[0], SortDesc(s[1..]));
      InsertSorted(s[0], SortDesc(s[1..]));
      assert s == [s[0]] + s[1..];
      forall k ensures WithScore(SortDesc(s), k) == WithScore(s, k) {
        InsertStable(s[0], SortDesc(s[1..]), k);
        WithScoreAppend([s[0]], SortDesc(s[1..]), k);
        WithScoreAppend([s[0]], s[1..], k);
      }
    }
  }

  /** A stable descending sort is unique: two sequences sorted by descending score that
      agree on the order of the entries of every single score are equal. */
  lemma {:induction false} StableSortUnique<T>(a: seq<(int, T)>, b: seq<(int, T)>)
    requires SortedDesc(a) && SortedDesc(b)
    requires forall k :: WithScore(a, k) == WithScore(b, k)
    ensures a == b
  {
    assert a != [] ==> WithScore(b, a[0].0) == WithScore(a, a[0].0) != [];
    assert b != [] ==> WithScore(a, b[0].0) == WithScore(b, b[0].0) != [];
    if a == [] || b == [] {
    } else {
      var m, n := a[0].0, b[0].0;
      assert WithScore(b, m)[0] == a[0];
      WithScoreMember(b, m, a[0]);
      assert WithScore(a, n)[0] == b[0];
      WithScoreMember(a, n, b[0]);
      assert m == n;
      assert a[0] == b[0];
      forall k ensures WithScore(a[1..], k) == WithScore(b[1..], k) {
        var p := if k == m then [a[0]] else [];
        assert WithScore(a, k) == p + WithScore(a[1..], k);
        assert WithScore(b, k) == p + WithScore(b[1..], k);
        assert WithScore(a[1..], k) == WithScore(a, k)[|p|..];
        assert WithScore(b[1..], k) == WithScore(b, k)[|p|..];
      }
      StableSortUnique(a[1..], b[1..]);
      assert a == [a[0]] + a[1..] && b == [b[0]] + b[1..];
    }
  }
}
