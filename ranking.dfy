/** Ranking for the feeds: a stable sort by a descending integer key, as
    `Array.prototype.sort` with the comparator `(a, b) => key(b) - key(a)`
    behaves (the sort is stable, so equal keys keep their input order),
    followed by `slice(0, limit)`. */
module Ranking {
  import Seqs

  /** The key of the element at position `i`. Sortedness is stated on it,
      so that the solver compares only positions a proof names. */
  function KeyAt<T>(s: seq<T>, key: T -> int, i: int): int
    requires 0 <= i < |s|
  {
    key(s[i])
  }

  /** Keys never increase along `s`. */
  ghost predicate SortedDesc<T>(s: seq<T>, key: T -> int) {
    forall i, j | 0 <= i < j < |s| :: KeyAt(s, key, i) >= KeyAt(s, key, j)
  }

  /** The tail of a sorted list is sorted. */
  lemma SortedTail<T>(s: seq<T>, key: T -> int)
    requires SortedDesc(s, key) && s != []
    ensures SortedDesc(s[1..], key)
  {
    forall i, j | 0 <= i < j < |s| - 1 ensures KeyAt(s[1..], key, i) >= KeyAt(s[1..], key, j) {
      assert KeyAt(s, key, i + 1) >= KeyAt(s, key, j + 1);
    }
  }

  /** An element whose key is at least every key of a sorted list can be put
      in front of it. */
  lemma SortedCons<T>(x: T, s: seq<T>, key: T -> int)
    requires SortedDesc(s, key)
    requires forall j | 0 <= j < |s| :: key(x) >= KeyAt(s, key, j)
    ensures SortedDesc([x] + s, key)
  {
    var r := [x] + s;
    forall i, j | 0 <= i < j < |r| ensures KeyAt(r, key, i) >= KeyAt(r, key, j) {
      assert KeyAt(r, key, j) == KeyAt(s, key, j - 1);
      if i > 0 {
        assert KeyAt(r, key, i) == KeyAt(s, key, i - 1);
      }
    }
  }

  /** The elements of `s` whose key is `k`, in their order in `s`: the tie
      class of `k`. A sort is stable exactly when it leaves every tie class
      as it was. */
  function TieClass<T>(s: seq<T>, key: T -> int, k: int): (r: seq<T>)
    ensures forall i | 0 <= i < |r| :: key(r[i]) == k
    ensures |r| <= |s|
  {
    if s == [] then []
    else if key(s[0]) == k then [s[0]] + TieClass(s[1..], key, k)
    else TieClass(s[1..], key, k)
  }

  /** Inserts `x` before the first element whose key is not larger, so it
      lands ahead of the elements that tie with it. */
  function InsertDesc<T(!new)>(x: T, s: seq<T>, key: T -> int): (r: seq<T>)
    ensures multiset(r) == multiset(s) + multiset{x}
    ensures forall y :: y in r <==> y in s || y == x
    ensures SortedDesc(s, key) ==> SortedDesc(r, key)
    ensures forall k :: TieClass(r, key, k) ==
                        (if key(x) == k then [x] + TieClass(s, key, k) else TieClass(s, key, k))
  {
    if s == [] || key(x) >= key(s[0]) then
      assert ([x] + s)[1..] == s;
      assert SortedDesc(s, key) ==> SortedDesc([x] + s, key) by {
        if SortedDesc(s, key) {
          forall j | 0 <= j < |s| ensures key(x) >= KeyAt(s, key, j) {
            assert KeyAt(s, key, 0) >= KeyAt(s, key, j);
          }
          SortedCons(x, s, key);
        }
      }
      [x] + s
    else
      var rest := InsertDesc(x, s[1..], key);
      assert s == [s[0]] + s[1..];
      assert ([s[0]] + rest)[1..] == rest;
      assert SortedDesc(s, key) ==> SortedDesc([s[0]] + rest, key) by {
        if SortedDesc(s, key) {
          SortedTail(s, key);
          HeadLeadsInsert(s, x, rest, key);
        }
      }
      [s[0]] + rest
  }

  /** Putting back the head of a sorted list in front of the list its tail
      became after inserting an element with a smaller key keeps it sorted. */
  lemma HeadLeadsInsert<T>(s: seq<T>, x: T, rest: seq<T>, key: T -> int)
    requires SortedDesc(s, key) && s != [] && key(x) < key(s[0])
    requires SortedDesc(rest, key)
    requires forall y :: y in rest <==> y in s[1..] || y == x
    ensures SortedDesc([s[0]] + rest, key)
  {
    forall j | 0 <= j < |rest| ensures key(s[0]) >= KeyAt(rest, key, j) {
      if rest[j] != x {
        assert rest[j] in s[1..];
        var m :| 0 <= m < |s[1..]| && s[1..][m] == rest[j];
        assert KeyAt(s, key, 0) >= KeyAt(s, key, m + 1);
      }
    }
    SortedCons(s[0], rest, key);
  }

  /** Stable insertion sort, largest key first. */
  function SortDesc<T(!new)>(s: seq<T>, key: T -> int): (r: seq<T>)
    ensures multiset(r) == multiset(s)
    ensures forall x :: x in r <==> x in s
    ensures |r| == |s|
    ensures SortedDesc(r, key)
    ensures forall k :: TieClass(r, key, k) == TieClass(s, key, k)
  {
    if s == [] then []
    else
      assert s == [s[0]] + s[1..];
      InsertDesc(s[0], SortDesc(s[1..], key), key)
  }

  /** The tie classes of a prefix are prefixes of the tie classes. */
  lemma {:induction false} TieClassPrefix<T>(s: seq<T>, key: T -> int, n: nat, k: int)
    requires n <= |s|
    ensures TieClass(s[..n], key, k) <= TieClass(s, key, k)
  {
    if n > 0 {
      assert s[..n][1..] == s[1..][..n - 1];
      TieClassPrefix(s[1..], key, n - 1, k);
    }
  }

  /** A prefix of a sequence takes no element more often than the sequence. */
  lemma PrefixMultiset<T>(s: seq<T>, n: nat)
    requires n <= |s|
    ensures multiset(s[..n]) <= multiset(s)
  {
    assert s == s[..n] + s[n..];
  }

  /** The first `n` elements of a sequence sorted by descending key have
      keys at least those of every element outside the prefix. */
  lemma SortedPrefixDominates<T>(sorted: seq<T>, key: T -> int, n: nat)
    requires SortedDesc(sorted, key) && n <= |sorted|
    ensures forall x, i | x in sorted && x !in sorted[..n] && 0 <= i < n :: key(sorted[i]) >= key(x)
  {
    forall x, i | x in sorted && x !in sorted[..n] && 0 <= i < n ensures key(sorted[i]) >= key(x) {
      var j :| 0 <= j < |sorted| && sorted[j] == x;
      assert forall m | 0 <= m < n :: sorted[..n][m] == sorted[m];
      assert j >= n;
      assert KeyAt(sorted, key, i) >= KeyAt(sorted, key, j);
    }
  }

  /** `s.sort((a, b) => key(b) - key(a)).slice(0, limit)`: the `limit` elements
      with the largest keys, largest first, ties in input order. */
  function TopK<T(!new)>(s: seq<T>, key: T -> int, limit: int): (r: seq<T>)
    ensures forall i | 0 <= i < |r| :: r[i] in s
    ensures multiset(r) <= multiset(s)
    ensures SortedDesc(r, key)
    ensures limit >= 0 ==> |r| == if limit < |s| then limit else |s|
    ensures limit < 0 ==> |r| == if |s| + limit > 0 then |s| + limit else 0
    ensures forall x, i | x in s && x !in r && 0 <= i < |r| :: key(r[i]) >= key(x)
    ensures forall k :: TieClass(r, key, k) <= TieClass(s, key, k)
  {
    var sorted := SortDesc(s, key);
    var r := Seqs.SlicePrefix(sorted, limit);
    assert r == sorted[..|r|];
    SortedPrefixFacts(s, sorted, key, |r|);
    r
  }

  /** The first `n` elements of a stable sort `sorted` of `s`: drawn from `s`, still
      sorted, dominating everything left out, and each tie class a prefix
      of the tie class in `s`. */
  lemma SortedPrefixFacts<T(!new)>(s: seq<T>, sorted: seq<T>, key: T -> int, n: nat)
    requires multiset(sorted) == multiset(s) && SortedDesc(sorted, key)
    requires forall k :: TieClass(sorted, key, k) == TieClass(s, key, k)
    requires n <= |sorted|
    ensures forall i | 0 <= i < n :: sorted[..n][i] in s
    ensures multiset(sorted[..n]) <= multiset(s)
    ensures SortedDesc(sorted[..n], key)
    ensures forall x, i | x in s && x !in sorted[..n] && 0 <= i < n :: key(sorted[..n][i]) >= key(x)
    ensures forall k :: TieClass(sorted[..n], key, k) <= TieClass(s, key, k)
  {
    var r := sorted[..n];
    assert multiset(r) <= multiset(s) by {
      PrefixMultiset(sorted, n);
    }
    assert forall i | 0 <= i < n :: r[i] in s by {
      forall i | 0 <= i < n ensures r[i] in s {
        assert r[i] in multiset(r);
      }
    }
    assert SortedDesc(r, key) by {
      forall i, j | 0 <= i < j < n ensures KeyAt(r, key, i) >= KeyAt(r, key, j) {
        assert KeyAt(r, key, i) == KeyAt(sorted, key, i);
        assert KeyAt(r, key, j) == KeyAt(sorted, key, j);
      }
    }
    assert forall x, i | x in s && x !in r && 0 <= i < n :: key(r[i]) >= key(x) by {
      forall x | x in s ensures x in sorted {
        assert x in multiset(s);
      }
      SortedPrefixDominates(sorted, key, n);
    }
    forall k ensures TieClass(r, key, k) <= TieClass(s, key, k) {
      TieClassPrefix(sorted, key, n, k);
    }
  }
}
