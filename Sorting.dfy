/**
 * Python's `sorted(xs, key=...)` on string keys: a stable insertion sort, used for
 * every listing the application orders by name.
 */
module Sorting {
  import opened Common

  /** No element has a key strictly smaller than an element before it. */
  predicate SortedBy<T>(s: seq<T>, key: T -> string) {
    forall i, j :: 0 <= i < j < |s| ==> !StrLess(key(s[j]), key(s[i]))
  }

  function Insert<T>(x: T, s: seq<T>, key: T -> string): (r: seq<T>)
    requires SortedBy(s, key)
    ensures SortedBy(r, key)
    ensures multiset(r) == multiset(s) + multiset{x}
    ensures |r| == |s| + 1
  {
    if s == [] then [x]
    else if !StrLess(key(s[0]), key(x)) then
      var r := [x] + s;
      forall j | 1 <= j < |r| ensures !StrLess(key(r[j]), key(x)) {
        assert r[j] == s[j - 1];
        if StrLess(key(r[j]), key(x)) && key(r[j]) != key(s[0]) {
          StrLessTotal(key(r[j]), key(s[0]));
          StrLessTransitive(key(s[0]), key(r[j]), key(x));
        }
      }
      r
    else
      var t := Insert(x, s[1..], key);
      var r := [s[0]] + t;
      assert s == [s[0]] + s[1..];
      forall j | 1 <= j < |r| ensures !StrLess(key(r[j]), key(s[0])) {
        assert r[j] in multiset(t);
        assert r[j] == x || r[j] in multiset(s[1..]);
        if r[j] == x {
          if StrLess(key(x), key(s[0])) {
            StrLessTransitive(key(s[0]), key(x), key(s[0]));
            StrLessIrreflexive(key(s[0]));
          }
        } else {
          assert r[j] in s[1..];
          var k :| 0 <= k < |s[1..]| && s[1..][k] == r[j];
          assert s[k + 1] == r[j];
        }
      }
      r
  }

  /** The elements of `s` whose key is `k`, in their order in `s`. */
  function WithKey<T>(s: seq<T>, key: T -> string, k: string): seq<T> {
    if s == [] then [] else (if key(s[0]) == k then [s[0]] else []) + WithKey(s[1..], key, k)
  }

  /** `WithKey` of a list with one more element in front. */
  lemma WithKeyCons<T>(y: T, t: seq<T>, key: T -> string, k: string)
    ensures WithKey([y] + t, key, k) == (if key(y) == k then [y] else []) + WithKey(t, key, k)
  {
    assert ([y] + t)[1..] == t;
  }

  /** Two elements of different keys can trade places without changing any key's list. */
  lemma WithKeySwap<T>(x: T, y: T, rest: seq<T>, t: seq<T>, key: T -> string, k: string)
    requires key(x) != key(y)
    requires WithKey(t, key, k) == WithKey([x] + rest, key, k)
    ensures WithKey([y] + t, key, k) == WithKey([x] + ([y] + rest), key, k)
  {
    WithKeyCons(y, t, key, k);
    WithKeyCons(x, rest, key, k);
    WithKeyCons(x, [y] + rest, key, k);
    WithKeyCons(y, rest, key, k);
  }

  /** `Insert` passes over a first element whose key is smaller, and otherwise puts `x` in front. */
  lemma InsertCases<T>(x: T, s: seq<T>, key: T -> string)
    requires SortedBy(s, key)
    ensures s != [] && StrLess(key(s[0]), key(x)) ==>
              SortedBy(s[1..], key) && Insert(x, s, key) == [s[0]] + Insert(x, s[1..], key)
    ensures !(s != [] && StrLess(key(s[0]), key(x))) ==> Insert(x, s, key) == [x] + s
  {
  }

  /** One step of `InsertStable`: passing over `s[0]` keeps every key's list. */
  lemma InsertStableStep<T>(x: T, s: seq<T>, key: T -> string, k: string)
    requires SortedBy(s, key) && s != [] && StrLess(key(s[0]), key(x))
    requires WithKey(Insert(x, s[1..], key), key, k) == WithKey([x] + s[1..], key, k)
    ensures WithKey(Insert(x, s, key), key, k) == WithKey([x] + s, key, k)
  {
    InsertCases(x, s, key);
    StrLessIrreflexive(key(x));
    WithKeySwap(x, s[0], s[1..], Insert(x, s[1..], key), key, k);
    assert [s[0]] + s[1..] == s;
  }

  /** Inserting `x` puts it after nothing of its own key: ties keep `x` in front, as if it were prepended. */
  lemma {:induction false} InsertStable<T>(x: T, s: seq<T>, key: T -> string, k: string)
    requires SortedBy(s, key)
    ensures WithKey(Insert(x, s, key), key, k) == WithKey([x] + s, key, k)
  {
    InsertCases(x, s, key);
    if s != [] && StrLess(key(s[0]), key(x)) {
      InsertStable(x, s[1..], key, k);
      InsertStableStep(x, s, key, k);
    }
  }

  /** Python's `sorted` is stable: the elements of one key keep their input order. */
  lemma {:induction false} SortStable<T>(s: seq<T>, key: T -> string, k: string)
    ensures WithKey(Sort(s, key), key, k) == WithKey(s, key, k)
  {
    if s != [] {
      SortStable(s[1..], key, k);
      InsertStable(s[0], Sort(s[1..], key), key, k);
      assert ([s[0]] + Sort(s[1..], key))[1..] == Sort(s[1..], key);
    }
  }

  function Sort<T>(s: seq<T>, key: T -> string): (r: seq<T>)
    ensures SortedBy(r, key)
    ensures multiset(r) == multiset(s)
    ensures |r| == |s|
  {
    if s == [] then []
    else
      assert s == [s[0]] + s[1..];
      Insert(s[0], Sort(s[1..], key), key)
  }
}
