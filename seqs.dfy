/** Sequence operations the store is built from: JavaScript's
    `filter(x => x !== v)`, `filter(p)`, `slice(0, end)`, and the iteration
    order of a `Map` (its values in key-insertion order). */
module Seqs {

  /** No two positions hold the same element. */
  ghost predicate NoDuplicates<T>(s: seq<T>) {
    forall i, j | 0 <= i < j < |s| :: s[i] != s[j]
  }

  /** A duplicate-free sequence holds each element at most once. */
  lemma {:induction false} NoDuplicatesCount<T>(s: seq<T>, x: T)
    requires NoDuplicates(s)
    ensures multiset(s)[x] == if x in s then 1 else 0
  {
    if s != [] {
      assert s == [s[0]] + s[1..];
      assert NoDuplicates(s[1..]) by {
        forall i, j | 0 <= i < j < |s[1..]| ensures s[1..][i] != s[1..][j] {
          assert s[1..][i] == s[i + 1] && s[1..][j] == s[j + 1];
        }
      }
      NoDuplicatesCount(s[1..], x);
      if s[0] == x {
        assert x !in s[1..] by {
          forall j | 0 <= j < |s[1..]| ensures s[1..][j] != x {
            assert s[1..][j] == s[j + 1];
          }
        }
      }
    }
  }

  /** `s.filter(y => y !== x)`: drops every occurrence of `x` and keeps the
      rest, with its multiplicities and its order. */
  function RemoveAll<T(==,!new)>(s: seq<T>, x: T): (r: seq<T>)
    ensures x !in r
    ensures forall y :: y != x ==> multiset(r)[y] == multiset(s)[y]
    ensures |r| == |s| - multiset(s)[x]
    ensures forall y :: y in r <==> y in s && y != x
  {
    if s == [] then []
    else
      assert s == [s[0]] + s[1..];
      if s[0] == x then RemoveAll(s[1..], x) else [s[0]] + RemoveAll(s[1..], x)
  }

  /** Removing `x` is the general filter with the predicate "differs from `x`". */
  lemma {:induction false} RemoveAllIsFilter<T(!new)>(s: seq<T>, x: T, p: T -> bool)
    requires forall y :: p(y) <==> y != x
    ensures RemoveAll(s, x) == Filter(s, p)
  {
    if s != [] {
      RemoveAllIsFilter(s[1..], x, p);
    }
  }

  /** Removing a value that does not occur changes nothing. */
  lemma {:induction false} RemoveAbsent<T(!new)>(s: seq<T>, x: T)
    requires x !in s
    ensures RemoveAll(s, x) == s
  {
    if s != [] {
      RemoveAbsent(s[1..], x);
    }
  }

  /** Removing a value distributes over concatenation. */
  lemma RemoveAllConcat<T(!new)>(a: seq<T>, b: seq<T>, x: T)
    ensures RemoveAll(a + b, x) == RemoveAll(a, x) + RemoveAll(b, x)
  {
    var p := (y: T) => y != x;
    RemoveAllIsFilter(a + b, x, p);
    RemoveAllIsFilter(a, x, p);
    RemoveAllIsFilter(b, x, p);
    FilterConcat(a, b, p);
  }

  /** Removing keeps a duplicate-free sequence duplicate-free. */
  lemma {:induction false} RemoveAllNoDuplicates<T(!new)>(s: seq<T>, x: T)
    requires NoDuplicates(s)
    ensures NoDuplicates(RemoveAll(s, x))
  {
    if s != [] {
      assert NoDuplicates(s[1..]) by {
        forall i, j | 0 <= i < j < |s[1..]| ensures s[1..][i] != s[1..][j] {
          assert s[1..][i] == s[i + 1] && s[1..][j] == s[j + 1];
        }
      }
      RemoveAllNoDuplicates(s[1..], x);
      if s[0] != x {
        var t := RemoveAll(s[1..], x);
        assert s[0] !in s[1..] by {
          forall j | 0 <= j < |s[1..]| ensures s[1..][j] != s[0] {
            assert s[1..][j] == s[j + 1];
          }
        }
        forall i, j | 0 <= i < j < |[s[0]] + t| ensures ([s[0]] + t)[i] != ([s[0]] + t)[j] {
          if i == 0 {
            assert ([s[0]] + t)[j] == t[j - 1] && t[j - 1] in t;
          } else {
            assert ([s[0]] + t)[i] == t[i - 1] && ([s[0]] + t)[j] == t[j - 1];
          }
        }
      }
    }
  }

  /** Appending a new value keeps a sequence duplicate-free. */
  lemma AppendNoDuplicates<T>(s: seq<T>, x: T)
    requires NoDuplicates(s) && x !in s
    ensures NoDuplicates(s + [x])
  {
    forall i, j | 0 <= i < j < |s + [x]| ensures (s + [x])[i] != (s + [x])[j] {
      if j == |s| {
        assert (s + [x])[i] == s[i];
      } else {
        assert (s + [x])[i] == s[i] && (s + [x])[j] == s[j];
      }
    }
  }

  /** `s.filter(p)`: the elements satisfying `p`, each as often as in `s`,
      in their original order. */
  function Filter<T(!new)>(s: seq<T>, p: T -> bool): (r: seq<T>)
    ensures |r| <= |s|
    ensures forall x :: x in r <==> x in s && p(x)
    ensures forall x :: multiset(r)[x] == if p(x) then multiset(s)[x] else 0
  {
    if s == [] then []
    else
      assert s == [s[0]] + s[1..];
      if p(s[0]) then [s[0]] + Filter(s[1..], p) else Filter(s[1..], p)
  }

  /** Filtering keeps the original order: filtering a concatenation
      concatenates the filtered parts. */
  lemma {:induction false} FilterConcat<T(!new)>(a: seq<T>, b: seq<T>, p: T -> bool)
    ensures Filter(a + b, p) == Filter(a, p) + Filter(b, p)
  {
    if a == [] {
      assert a + b == b;
    } else {
      assert (a + b)[0] == a[0];
      assert (a + b)[1..] == a[1..] + b;
      FilterConcat(a[1..], b, p);
    }
  }

  /** The values of `m` listed in the order of `ids`, as `Array.from(map.values())`
      lists a JavaScript `Map` in insertion order. */
  function InOrder<K, V>(ids: seq<K>, m: map<K, V>): (r: seq<V>)
    requires forall id | id in ids :: id in m
    ensures |r| == |ids|
    ensures forall i | 0 <= i < |ids| :: r[i] == m[ids[i]]
  {
    if ids == [] then [] else [m[ids[0]]] + InOrder(ids[1..], m)
  }

  /** When `ids` lists exactly the keys of `m`, the listing holds exactly the
      values of `m`. */
  lemma InOrderValues<K(!new), V(!new)>(ids: seq<K>, m: map<K, V>)
    requires forall id :: id in ids <==> id in m
    ensures forall v :: v in InOrder(ids, m) <==> v in m.Values
  {
    var r := InOrder(ids, m);
    forall v | v in m.Values ensures v in r {
      var id :| id in m && m[id] == v;
      var i :| 0 <= i < |ids| && ids[i] == id;
      assert r[i] == v;
    }
  }

  /** Replacing the value of one listed key replaces one element of the
      listing, at that key's position. */
  lemma InOrderUpdate<K(!new), V>(ids: seq<K>, m: map<K, V>, i: nat, v: V)
    requires forall id | id in ids :: id in m
    requires i < |ids| && NoDuplicates(ids)
    ensures InOrder(ids, m[ids[i] := v]) == InOrder(ids, m)[i := v]
  {
    var a := InOrder(ids, m[ids[i] := v]);
    var b := InOrder(ids, m)[i := v];
    forall j | 0 <= j < |ids| ensures a[j] == b[j] {
      assert j != i ==> ids[j] != ids[i];
    }
  }

  /** `s.slice(0, end)` for an integer `end`: a non-negative end is clamped
      to the length; a negative one counts back from the end. */
  function SlicePrefix<T>(s: seq<T>, end: int): (r: seq<T>)
    ensures r <= s
    ensures end >= 0 ==> |r| == if end < |s| then end else |s|
    ensures end < 0 ==> |r| == if |s| + end > 0 then |s| + end else 0
  {
    if end >= 0 then s[..if end < |s| then end else |s|]
    else s[..if |s| + end > 0 then |s| + end else 0]
  }
}
