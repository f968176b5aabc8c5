/** Descending sort by an integer key, as `Array.prototype.sort((a, b) => key(b) - key(a))`
    and Mongoose's `.sort({ field: -1 })` order their results. The sort is an insertion
    sort that places each element after every element whose key is at least its own.
    Its contract fixes only the permutation and the descending order: JavaScript's sort
    is stable, but MongoDB promises no order among equal keys, so the model does not
    claim one. */
module Sorting {

  predicate SortedDesc<T>(s: seq<T>, key: T -> int)
  {
    forall i, j :: 0 <= i < j < |s| ==> key(s[i]) >= key(s[j])
  }

  /** Inserts `x` into `s` after every element whose key is at least `key(x)`. */
  function InsertDesc<T(!new,==)>(x: T, s: seq<T>, key: T -> int): (r: seq<T>)
    requires SortedDesc(s, key)
    ensures multiset(r) == multiset(s) + multiset{x}
    ensures |r| == |s| + 1
    ensures SortedDesc(r, key)
  {
    if |s| == 0 then [x]
    else if key(x) > key(s[0]) then
      [x] + s
    else
      var rest := InsertDesc(x, s[1..], key);
      assert s == [s[0]] + s[1..];
      HeadBounds(s[0], x, s[1..], rest, key);
      [s[0]] + rest
  }

  /** A head whose key bounds both the inserted element and the tail it was inserted
      into keeps the result sorted. */
  lemma HeadBounds<T>(h: T, x: T, t: seq<T>, rest: seq<T>, key: T -> int)
    requires key(x) <= key(h)
    requires SortedDesc([h] + t, key)
    requires multiset(rest) == multiset(t) + multiset{x}
    requires SortedDesc(rest, key)
    ensures SortedDesc([h] + rest, key)
  {
    forall i | 0 <= i < |rest| ensures key(rest[i]) <= key(h) {
      assert rest[i] in multiset(rest);
      if rest[i] != x {
        assert rest[i] in multiset(t);
        var j :| 0 <= j < |t| && t[j] == rest[i];
        assert ([h] + t)[0] == h && ([h] + t)[j + 1] == t[j];
      }
    }
    var r := [h] + rest;
    forall i, j | 0 <= i < j < |r| ensures key(r[i]) >= key(r[j]) {
      if i > 0 {
        assert r[i] == rest[i - 1] && r[j] == rest[j - 1];
      } else {
        assert r[i] == h && r[j] == rest[j - 1];
      }
    }
  }

  /** `s` sorted by non-increasing key; a permutation of `s`. */
  function SortDesc<T(!new,==)>(s: seq<T>, key: T -> int): (r: seq<T>)
    ensures multiset(r) == multiset(s)
    ensures |r| == |s|
    ensures SortedDesc(r, key)
  {
    if |s| == 0 then []
    else
      assert s == s[..|s| - 1] + [s[|s| - 1]];
      InsertDesc(s[|s| - 1], SortDesc(s[..|s| - 1], key), key)
  }

  /** The first `n` elements of `s`, or all of them when there are fewer
      (`Array.prototype.slice(0, n)`). */
  function Take<T>(s: seq<T>, n: nat): (r: seq<T>)
    ensures |r| <= n && |r| <= |s|
    ensures |s| <= n ==> r == s
    ensures r == s[..|r|]
  {
    if |s| <= n then s else s[..n]
  }
}
