/** Go's `sort.SliceStable` and `sort.Strings`, specified by the permutation they apply. */
module Sorting {
  import opened Text

  /** What a comparison function must be for sorting to make sense. */
  ghost predicate StrictWeak<T(!new)>(less: (T, T) -> bool) {
    && (forall a :: !less(a, a))
    && (forall a, b, c :: less(a, b) && less(b, c) ==> less(a, c))
    && (forall a, b, c :: less(a, c) ==> less(a, b) || less(b, c))
  }

  /** Index `i` must come before index `j` in a stable sort of `s`. */
  predicate Before<T>(s: seq<T>, less: (T, T) -> bool, i: nat, j: nat)
    requires i < |s| && j < |s|
  {
    less(s[i], s[j]) || (!less(s[j], s[i]) && i < j)
  }

  /** `perm` lists every index below `n` exactly once, each one Before the next. */
  ghost predicate StablePerm<T>(s: seq<T>, less: (T, T) -> bool, n: nat, perm: seq<nat>)
    requires n <= |s|
  {
    && |perm| == n
    && (forall i: nat :: i < n ==> i in perm)
    && (forall k :: 0 <= k < n ==> perm[k] < n)
    && Ordered(s, less, perm)
  }

  /** Insertion of index `i` in front of the first strictly larger element. */
  function InsertIndex<T>(s: seq<T>, less: (T, T) -> bool, perm: seq<nat>, i: nat): (r: seq<nat>)
    requires i < |s| && forall k :: 0 <= k < |perm| ==> perm[k] < |s|
    ensures forall x: nat :: x in r <==> x in perm || x == i
    ensures |r| == |perm| + 1
  {
    if perm == [] then [i]
    else if less(s[i], s[perm[|perm| - 1]]) then
      var init := InsertIndex(s, less, perm[..|perm| - 1], i);
      assert perm == perm[..|perm| - 1] + [perm[|perm| - 1]];
      init + [perm[|perm| - 1]]
    else perm + [i]
  }

  function SortPerm<T>(s: seq<T>, less: (T, T) -> bool, n: nat): (perm: seq<nat>)
    requires n <= |s|
    ensures |perm| == n
    ensures forall x: nat :: x in perm <==> x < n
    ensures forall k :: 0 <= k < n ==> perm[k] < n
  {
    if n == 0 then [] else
      var r := InsertIndex(s, less, SortPerm(s, less, n - 1), n - 1);
      assert forall k :: 0 <= k < n ==> r[k] in r;
      r
  }

  function StableSort<T>(s: seq<T>, less: (T, T) -> bool): (r: seq<T>)
    ensures |r| == |s|
  {
    var perm := SortPerm(s, less, |s|);
    seq(|s|, k requires 0 <= k < |s| => s[perm[k]])
  }

  ghost predicate Ordered<T>(s: seq<T>, less: (T, T) -> bool, perm: seq<nat>) {
    && (forall k :: 0 <= k < |perm| ==> perm[k] < |s|)
    && (forall k, l :: 0 <= k < l < |perm| ==> Before(s, less, perm[k], perm[l]))
  }

  lemma {:induction false} InsertKeepsOrder<T(!new)>(s: seq<T>, less: (T, T) -> bool, perm: seq<nat>, i: nat)
    requires StrictWeak(less) && i < |s|
    requires forall k :: 0 <= k < |perm| ==> perm[k] < i
    requires Ordered(s, less, perm)
    ensures Ordered(s, less, InsertIndex(s, less, perm, i))
  {
    var r := InsertIndex(s, less, perm, i);
    if perm != [] {
      var init, last := perm[..|perm| - 1], perm[|perm| - 1];
      if less(s[i], s[last]) {
        InsertKeepsOrder(s, less, init, i);
        var r0 := InsertIndex(s, less, init, i);
        forall k | 0 <= k < |r0|
          ensures r0[k] < |s| && Before(s, less, r0[k], last)
        {
          assert r0[k] in r0;
          if r0[k] != i {
            var m :| 0 <= m < |init| && init[m] == r0[k];
            assert Before(s, less, perm[m], perm[|perm| - 1]);
          }
        }
        assert r == r0 + [last];
      } else {
        forall k | 0 <= k < |perm| ensures Before(s, less, perm[k], i) {
          if k < |perm| - 1 {
            assert Before(s, less, perm[k], last);
          }
        }
      }
    }
  }

  lemma {:induction false} SortPermIsStable<T(!new)>(s: seq<T>, less: (T, T) -> bool, n: nat)
    requires StrictWeak(less) && n <= |s|
    ensures StablePerm(s, less, n, SortPerm(s, less, n))
  {
    if n > 0 {
      SortPermIsStable(s, less, n - 1);
      InsertKeepsOrder(s, less, SortPerm(s, less, n - 1), n - 1);
    }
  }

  /** The sorted output holds the same elements, and only equal-ranked elements may be
      adjacent out of strict order, in which case they keep their input order. */
  lemma StableSortIsStable<T(!new)>(s: seq<T>, less: (T, T) -> bool)
    requires StrictWeak(less)
    ensures var perm := SortPerm(s, less, |s|);
            && StablePerm(s, less, |s|, perm)
            && forall k :: 0 <= k < |s| ==> StableSort(s, less)[k] == s[perm[k]]
    ensures forall x :: x in StableSort(s, less) <==> x in s
    ensures forall k, l :: 0 <= k < l < |s| ==> !less(StableSort(s, less)[l], StableSort(s, less)[k])
  {
    SortPermIsStable(s, less, |s|);
    hide SortPerm;
    PermutedLaw(s, less, SortPerm(s, less, |s|), StableSort(s, less));
  }

  lemma PermutedLaw<T(!new)>(s: seq<T>, less: (T, T) -> bool, perm: seq<nat>, r: seq<T>)
    requires StrictWeak(less) && StablePerm(s, less, |s|, perm)
    requires |r| == |s| && forall k :: 0 <= k < |r| ==> r[k] == s[perm[k]]
    ensures forall x :: x in r <==> x in s
    ensures forall k, l :: 0 <= k < l < |s| ==> !less(r[l], r[k])
  {
    forall x | x in s ensures x in r {
      var i :| 0 <= i < |s| && s[i] == x;
      assert i in perm;
      var k :| 0 <= k < |perm| && perm[k] == i;
      assert r[k] == x;
    }
    forall k, l | 0 <= k < l < |s| ensures !less(r[l], r[k]) {
      assert Before(s, less, perm[k], perm[l]);
    }
  }

  lemma LessIsStrictWeak()
    ensures StrictWeak(Less)
  {
    forall a, b { LessTotal(a, b); }
    forall a, b, c | Less(a, b) && Less(b, c) ensures Less(a, c) { LessTransitive(a, b, c); }
    forall a, b, c | Less(a, c) ensures Less(a, b) || Less(b, c) {
      LessTotal(a, b);
      LessTotal(b, c);
      if !Less(a, b) && a != b && Less(b, a) { LessTransitive(b, a, c); }
    }
  }

  /** Strictly increasing strings. */
  ghost predicate Ascending(s: seq<string>) {
    forall i, j :: 0 <= i < j < |s| ==> Less(s[i], s[j])
  }

  /** `sort.Strings`. */
  function SortStrings(s: seq<string>): (r: seq<string>)
    ensures |r| == |s|
  {
    StableSort(s, Less)
  }

  lemma LastIsLargest(a: seq<string>, y: string)
    requires Ascending(a) && y in a
    ensures !Less(a[|a| - 1], y)
  {
    var i :| 0 <= i < |a| && a[i] == y;
    LessTotal(a[|a| - 1], y);
    assert i == |a| - 1 || Less(a[i], a[|a| - 1]);
  }

  lemma InitWithout(a: seq<string>)
    requires Ascending(a) && a != []
    ensures forall z :: z in a[..|a| - 1] <==> z in a && z != a[|a| - 1]
  {
    var x, init := a[|a| - 1], a[..|a| - 1];
    LessTotal(x, x);
    assert a == init + [x];
    forall z | z in init ensures z != x { var i :| 0 <= i < |init| && init[i] == z; assert Less(a[i], x); }
  }

  lemma {:induction false} AscendingUnique(a: seq<string>, b: seq<string>)
    requires Ascending(a) && Ascending(b)
    requires forall x :: x in a <==> x in b
    ensures a == b
  {
    assert a == [] <==> b == [] by {
      if a != [] { assert a[0] in b; }
      if b != [] { assert b[0] in a; }
    }
    if a != [] {
      var x, y := a[|a| - 1], b[|b| - 1];
      assert x in b && y in a;
      LastIsLargest(a, y);
      LastIsLargest(b, x);
      LessTotal(x, y);
      assert x == y;
      var a', b' := a[..|a| - 1], b[..|b| - 1];
      InitWithout(a);
      InitWithout(b);
      forall z ensures z in a' <==> z in b' { assert z in a <==> z in b; }
      AscendingUnique(a', b');
      assert a == a' + [x] && b == b' + [y];
    }
  }

  /** Sorting distinct strings gives a strictly increasing sequence of the same strings. */
  lemma SortStringsAscending(s: seq<string>)
    requires Distinct(s)
    ensures Ascending(SortStrings(s))
    ensures forall x :: x in SortStrings(s) <==> x in s
  {
    LessIsStrictWeak();
    StableSortIsStable(s, Less);
    var perm, r := SortPerm(s, Less, |s|), SortStrings(s);
    forall i, j | 0 <= i < j < |r| ensures Less(r[i], r[j]) {
      assert Before(s, Less, perm[i], perm[j]);
      LessTotal(r[i], r[j]);
    }
  }

  /** The elements of a finite set in ascending order: what sorting a Go map's keys gives,
      whatever order the map was iterated in. */
  ghost function SortedKeys(keys: set<string>): (r: seq<string>)
    ensures Ascending(r)
    ensures forall x :: x in r <==> x in keys
  {
    var s := AnyOrder(keys);
    SortStringsAscending(s);
    SortStrings(s)
  }

  ghost function AnyOrder(keys: set<string>): (s: seq<string>)
    ensures Distinct(s)
    ensures forall x :: x in s <==> x in keys
  {
    if keys == {} then [] else
      var k :| k in keys;
      [k] + AnyOrder(keys - {k})
  }

  /** Any listing of the set sorts to `SortedKeys`. */
  lemma SortedKeysAnyOrder(keys: set<string>, listing: seq<string>)
    requires Distinct(listing)
    requires forall x :: x in listing <==> x in keys
    ensures SortStrings(listing) == SortedKeys(keys)
  {
    SortStringsAscending(listing);
    AscendingUnique(SortStrings(listing), SortedKeys(keys));
  }

  /** `sort.Strings` on the keys of a map, whatever order the map is ranged over. */
  method SortKeys(keys: set<string>) returns (r: seq<string>)
    ensures r == SortedKeys(keys)
  {
    hide SortStrings, SortedKeys;
    var listed: seq<string> := [];
    var rest := keys;
    while rest != {}
      invariant rest <= keys && Distinct(listed) && forall x :: x in listed <==> x in keys && x !in rest
      decreases |rest|
    {
      var k :| k in rest;
      listed, rest := listed + [k], rest - {k};
    }
    SortedKeysAnyOrder(keys, listed);
    r := SortStrings(listed);
  }
}
