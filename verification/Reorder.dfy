/** Field reordering before rendering: pair swaps for proxy-groups, one rotation for proxies, both
    in place on the mapping's content. */
module Reorder {
  import opened Text
  import opened Yaml

  const HEAD := ["name", "type", "proxies"]
  const LOAD_BALANCE_TAIL := ["url", "interval", "lazy", "strategy", "timeout", "max-failed-times"]
  const DEFAULT_TAIL := ["url", "interval", "timeout", "max-failed-times", "lazy"]

  // ----- swaps as values

  /** Pair `i` and pair `t` (by content position) exchanged. */
  function Swapped(c: seq<Node>, i: nat, t: nat): (r: seq<Node>)
    requires i + 1 < |c| && t + 1 < |c|
    ensures |r| == |c|
  {
    c[t := c[i]][t + 1 := c[i + 1]][i := c[t]][i + 1 := c[t + 1]]
  }

  /** `moveFieldToPosition` */
  function Moved(c: seq<Node>, key: string, t: nat): (r: seq<Node>)
    ensures |r| == |c|
  {
    var i := FindKey(c, key, 0);
    if i + 1 >= |c| || i == t || t + 1 >= |c| then c else Swapped(c, i, t)
  }

  /** The listed keys moved in turn to the slots from `from` on. */
  function MovedAll(c: seq<Node>, keys: seq<string>, from: nat): (r: seq<Node>)
    ensures |r| == |c|
  {
    if keys == [] then c else Moved(MovedAll(c, keys[..|keys| - 1], from), keys[|keys| - 1], 2 * (from + |keys| - 1))
  }

  function TailFor(c: seq<Node>): (keys: seq<string>) {
    if |c| > 3 && c[3].kind == Scalar && c[3].value == "load-balance" then LOAD_BALANCE_TAIL else DEFAULT_TAIL
  }

  /** `reorderProxyGroupFields` on a mapping's content. */
  function Reordered(c: seq<Node>): (r: seq<Node>)
    ensures |r| == |c|
  {
    if |c| < 2 then c else
      var h := MovedAll(c, HEAD, 0);
      MovedAll(h, TailFor(h), 3)
  }

  // ----- in place

  /** `moveFieldToPosition`; slots are key positions. */
  method MoveFieldToPosition(a: array<Node>, key: string, t: nat)
    requires t % 2 == 0
    modifies a
    ensures a[..] == Moved(old(a[..]), key, t)
  {
    ghost var c := a[..];
    var i := 0;
    while i + 1 < a.Length && a[i].value != key
      invariant i % 2 == 0 && a[..] == c && FindKey(c, key, 0) == FindKey(c, key, i)
    {
      i := i + 2;
    }
    if i + 1 >= a.Length || i == t || t + 1 >= a.Length { return; }
    var targetKey, targetVal := a[t], a[t + 1];
    a[t] := a[i];
    a[t + 1] := a[i + 1];
    a[i] := targetKey;
    a[i + 1] := targetVal;
    assert a[..] == Swapped(c, i, t);
  }

  /** Moves the listed keys, one after the other. */
  method MoveAll(a: array<Node>, keys: seq<string>, from: nat)
    modifies a
    ensures a[..] == MovedAll(old(a[..]), keys, from)
  {
    hide Moved;
    for j := 0 to |keys|
      invariant a[..] == MovedAll(old(a[..]), keys[..j], from)
    {
      assert keys[..j + 1][..j] == keys[..j];
      MoveFieldToPosition(a, keys[j], 2 * (from + j));
    }
    assert keys[..|keys|] == keys;
  }

  /** `reorderProxyGroupFields` */
  method ReorderProxyGroupFields(a: array<Node>)
    modifies a
    ensures a[..] == Reordered(old(a[..]))
  {
    hide MovedAll;
    if a.Length < 2 { return; }
    MoveAll(a, HEAD, 0);
    var typeValue := "";
    if a.Length > 3 && a[3].kind == Scalar { typeValue := a[3].value; }
    MoveAll(a, if typeValue == "load-balance" then LOAD_BALANCE_TAIL else DEFAULT_TAIL, 3);
  }

  // ----- laws of the swaps

  /** The key/value pairs of a content; a trailing key without a value is no pair. */
  function Pairs(c: seq<Node>): (r: seq<(Node, Node)>)
    ensures |r| == |c| / 2
  {
    seq(|c| / 2, k requires 0 <= k < |c| / 2 => (c[2 * k], c[2 * k + 1]))
  }

  /** Two entries exchanged. */
  function Exchanged<T>(s: seq<T>, i: nat, j: nat): (r: seq<T>)
    requires i < |s| && j < |s|
    ensures |r| == |s|
  {
    s[j := s[i]][i := s[j]]
  }

  lemma ExchangeIsPermutation<T>(s: seq<T>, i: nat, j: nat)
    requires i < |s| && j < |s|
    ensures multiset(Exchanged(s, i, j)) == multiset(s)
  {
  }

  /** A swap never splits a pair. */
  lemma SwapIsExchange(c: seq<Node>, i: nat, t: nat)
    requires i % 2 == 0 && t % 2 == 0 && i != t && i + 1 < |c| && t + 1 < |c|
    ensures Pairs(Swapped(c, i, t)) == Exchanged(Pairs(c), i / 2, t / 2)
  {
    var r := Swapped(c, i, t);
    forall k | 0 <= k < |c| / 2 ensures Pairs(r)[k] == Exchanged(Pairs(c), i / 2, t / 2)[k] {
      assert 2 * (i / 2) == i && 2 * (t / 2) == t;
    }
  }

  /** What moving one key does to the pairs: nothing, or an exchange that brings it to its slot. */
  lemma MovedLaw(c: seq<Node>, key: string, slot: nat)
    ensures var i, r := FindKey(c, key, 0), Moved(c, key, 2 * slot);
            || (Pairs(r) == Pairs(c) && (i == |c| || i == 2 * slot || slot >= |Pairs(c)|))
            || (i + 1 < |c| && i / 2 < |Pairs(c)| && slot < |Pairs(c)| && Pairs(c)[i / 2].0.value == key
                && i / 2 != slot && Pairs(r) == Exchanged(Pairs(c), i / 2, slot))
  {
    var i, t := FindKey(c, key, 0), 2 * slot;
    if i + 1 < |c| && i != t && t + 1 < |c| {
      SwapIsExchange(c, i, t);
      assert 2 * (i / 2) == i && t / 2 == slot;
    }
  }

  /** Moving keys permutes the pairs, whatever the keys are. */
  lemma {:induction false} MovedAllPermutes(c: seq<Node>, keys: seq<string>, from: nat)
    ensures multiset(Pairs(MovedAll(c, keys, from))) == multiset(Pairs(c))
  {
    if keys != [] {
      var init, slot := keys[..|keys| - 1], from + |keys| - 1;
      MovedAllPermutes(c, init, from);
      MovePermutes(MovedAll(c, init, from), keys[|keys| - 1], slot);
    }
  }

  lemma MovePermutes(c: seq<Node>, key: string, slot: nat)
    ensures multiset(Pairs(Moved(c, key, 2 * slot))) == multiset(Pairs(c))
  {
    hide Moved, Exchanged, FindKey;
    MovedLaw(c, key, slot);
    var i := FindKey(c, key, 0) / 2;
    if i < |Pairs(c)| && slot < |Pairs(c)| { ExchangeIsPermutation(Pairs(c), i, slot); }
  }

  /** The keys' pairs sit in their slots, for keys that occur and slots that exist. */
  ghost predicate Placed(p: seq<(Node, Node)>, keys: seq<string>, from: nat) {
    forall j :: 0 <= j < |keys| && from + j < |p| && HasKey(p, keys[j]) ==> p[from + j].0.value == keys[j]
  }

  ghost predicate HasKey(p: seq<(Node, Node)>, key: string) { exists k :: 0 <= k < |p| && p[k].0.value == key }

  ghost predicate KeysDistinct(p: seq<(Node, Node)>) {
    forall j, k :: 0 <= j < k < |p| ==> p[j].0.value != p[k].0.value
  }

  lemma ExchangeKeeps(p: seq<(Node, Node)>, i: nat, j: nat)
    requires i < |p| && j < |p| && i != j
    ensures KeysDistinct(p) ==> KeysDistinct(Exchanged(p, i, j))
    ensures forall key :: HasKey(p, key) <==> HasKey(Exchanged(p, i, j), key)
  {
    var r := Exchanged(p, i, j);
    forall key ensures HasKey(p, key) <==> HasKey(r, key) {
      if k :| 0 <= k < |p| && p[k].0.value == key {
        assert r[if k == i then j else if k == j then i else k].0.value == key;
      }
      if k :| 0 <= k < |r| && r[k].0.value == key {
        assert p[if k == i then j else if k == j then i else k].0.value == key;
      }
    }
  }

  /** A later swap never disturbs an earlier slot. */
  lemma ExchangePlaces(p: seq<(Node, Node)>, keys: seq<string>, key: string, i: nat)
    requires KeysDistinct(p) && Distinct(keys + [key]) && Placed(p, keys, 0)
    requires i < |p| && |keys| < |p| && i != |keys| && p[i].0.value == key
    ensures Placed(Exchanged(p, i, |keys|), keys + [key], 0)
  {
    var r, all := Exchanged(p, i, |keys|), keys + [key];
    ExchangeKeeps(p, i, |keys|);
    forall j | 0 <= j < |all| && j < |r| && HasKey(r, all[j]) ensures r[j].0.value == all[j] {
      if j < |keys| {
        assert HasKey(p, keys[j]) && p[j].0.value == keys[j];
        assert all[j] != all[|keys|];
      }
    }
  }

  lemma PlacedAlready(p: seq<(Node, Node)>, keys: seq<string>, key: string)
    requires Placed(p, keys, 0) && (|keys| < |p| && HasKey(p, key) ==> p[|keys|].0.value == key)
    ensures Placed(p, keys + [key], 0)
  {
    forall j | 0 <= j < |keys + [key]| && j < |p| && HasKey(p, (keys + [key])[j])
      ensures p[j].0.value == (keys + [key])[j]
    {
      if j < |keys| { assert (keys + [key])[j] == keys[j]; }
    }
  }

  lemma {:induction false} FindKeyFinds(c: seq<Node>, key: string, i: nat, k: nat)
    requires i % 2 == 0 && i <= 2 * k && 2 * k + 1 < |c| && c[2 * k].value == key
    ensures FindKey(c, key, i) + 1 < |c|
    decreases |c| - i
  {
    if c[i].value != key { FindKeyFinds(c, key, i + 2, k); }
  }

  /** With distinct keys, finding a key gives its only position. */
  lemma KeyPosition(c: seq<Node>, key: string)
    requires KeysDistinct(Pairs(c)) && HasKey(Pairs(c), key)
    ensures var i := FindKey(c, key, 0); i + 1 < |c| && i % 2 == 0 && Pairs(c)[i / 2].0.value == key
  {
    var k :| 0 <= k < |Pairs(c)| && Pairs(c)[k].0.value == key;
    FindKeyFinds(c, key, 0, k);
  }

  lemma MovePlaces(c: seq<Node>, keys: seq<string>, key: string)
    requires KeysDistinct(Pairs(c)) && Distinct(keys + [key]) && Placed(Pairs(c), keys, 0)
    ensures var r := Pairs(Moved(c, key, 2 * |keys|));
            && KeysDistinct(r) && Placed(r, keys + [key], 0) && forall x :: HasKey(r, x) <==> HasKey(Pairs(c), x)
  {
    hide Moved;
    var p, i := Pairs(c), FindKey(c, key, 0);
    MovedLaw(c, key, |keys|);
    if HasKey(p, key) { KeyPosition(c, key); }
    if Pairs(Moved(c, key, 2 * |keys|)) == p {
      PlacedAlready(p, keys, key);
    } else {
      ExchangePlaces(p, keys, key, i / 2);
      ExchangeKeeps(p, i / 2, |keys|);
    }
  }

  lemma {:induction false} MovedAllPlaces(c: seq<Node>, keys: seq<string>)
    requires KeysDistinct(Pairs(c)) && Distinct(keys)
    ensures var r := Pairs(MovedAll(c, keys, 0));
            && KeysDistinct(r) && Placed(r, keys, 0) && forall x :: HasKey(r, x) <==> HasKey(Pairs(c), x)
  {
    if keys != [] {
      var init, key := keys[..|keys| - 1], keys[|keys| - 1];
      assert keys == init + [key];
      MovedAllPlaces(c, init);
      MovePlaces(MovedAll(c, init, 0), init, key);
    }
  }

  lemma {:induction false} MovedAllConcat(c: seq<Node>, a: seq<string>, b: seq<string>)
    ensures MovedAll(MovedAll(c, a, 0), b, |a|) == MovedAll(c, a + b, 0)
  {
    hide Moved;
    if b == [] {
      assert a + b == a;
    } else {
      MovedAllConcat(c, a, b[..|b| - 1]);
      assert (a + b)[..|a + b| - 1] == a + b[..|b| - 1] && (a + b)[|a + b| - 1] == b[|b| - 1];
    }
  }

  lemma LayoutsDistinct()
    ensures Distinct(HEAD + LOAD_BALANCE_TAIL) && Distinct(HEAD + DEFAULT_TAIL)
  {
  }

  /** The keys of the layout chosen for a content. */
  function Layout(c: seq<Node>): (keys: seq<string>) { HEAD + TailFor(MovedAll(c, HEAD, 0)) }

  /** Reordering a proxy-group permutes its pairs, and with distinct keys every listed key that is
      present and whose slot exists ends in that slot. */
  lemma ReorderedLaw(c: seq<Node>)
    ensures multiset(Pairs(Reordered(c))) == multiset(Pairs(c))
    ensures |c| >= 2 && KeysDistinct(Pairs(c)) ==>
      forall j :: 0 <= j < |Layout(c)| && 2 * j + 1 < |c| && HasKey(Pairs(c), Layout(c)[j]) ==>
             Reordered(c)[2 * j].value == Layout(c)[j]
  {
    if |c| >= 2 {
      hide MovedAll;
      var h := MovedAll(c, HEAD, 0);
      MovedAllPermutes(c, HEAD, 0);
      MovedAllPermutes(h, TailFor(h), 3);
      if KeysDistinct(Pairs(c)) {
        LayoutsDistinct();
        MovedAllConcat(c, HEAD, TailFor(h));
        MovedAllPlaces(c, Layout(c));
        var r := Reordered(c);
        forall j | 0 <= j < |Layout(c)| && 2 * j + 1 < |c| && HasKey(Pairs(c), Layout(c)[j])
          ensures r[2 * j].value == Layout(c)[j]
        {
          assert Pairs(r)[0 + j].0 == r[2 * j];
        }
      }
    }
  }

  // ----- name first

  /** `reorderNameFirst` on a mapping's content: a pair at position 0 is never looked at. */
  function NameFirst(c: seq<Node>): (r: seq<Node>)
    ensures |r| == |c|
  {
    var i := if |c| < 2 then |c| else FindKey(c, "name", 2);
    if i + 1 >= |c| then c else [c[i], c[i + 1]] + c[..i] + c[i + 2..]
  }

  /** Go's `copy` of the first `n` entries two places up: the ranges overlap, so from the top. */
  method CopyUp(a: array<Node>, n: nat)
    requires n + 2 <= a.Length
    modifies a
    ensures a[..] == old(a[..])[..2] + old(a[..])[..n] + old(a[..])[n + 2..]
  {
    ghost var c := a[..];
    var k := n;
    while k > 0
      invariant 0 <= k <= n && a.Length == |c|
      invariant forall j :: 0 <= j < k + 2 || n + 2 <= j < |c| ==> a[j] == c[j]
      invariant forall j :: k <= j < n ==> a[j + 2] == c[j]
    {
      k := k - 1;
      a[k + 2] := a[k];
    }
    forall j | 0 <= j < |c| ensures a[..][j] == (c[..2] + c[..n] + c[n + 2..])[j] {
      if 2 <= j < n + 2 { assert a[(j - 2) + 2] == c[j - 2]; }
    }
  }

  /** `reorderNameFirst` */
  method ReorderNameFirst(a: array<Node>)
    modifies a
    ensures a[..] == NameFirst(old(a[..]))
  {
    ghost var c := a[..];
    var i := 0;
    while i + 1 < a.Length && !(a[i].value == "name" && i > 0)
      invariant a[..] == c && i % 2 == 0
      invariant i > 0 ==> |c| >= 2 && FindKey(c, "name", 2) == FindKey(c, "name", i)
    {
      i := i + 2;
    }
    if i + 1 >= a.Length { return; }
    var key, val := a[i], a[i + 1];
    CopyUp(a, i);
    a[0] := key;
    a[1] := val;
    assert a[..] == [c[i], c[i + 1]] + c[..i] + c[i + 2..];
  }

  /** With distinct keys and a name, the name comes first and the other pairs keep their order;
      without one nothing moves. */
  lemma NameFirstLaw(c: seq<Node>)
    requires KeysDistinct(Pairs(c))
    ensures var p, r := Pairs(c), Pairs(NameFirst(c));
            && (!HasKey(p, "name") ==> NameFirst(c) == c)
            && (forall k :: 0 <= k < |p| && p[k].0.value == "name" ==> r == [p[k]] + p[..k] + p[k + 1..])
  {
    var p, r := Pairs(c), Pairs(NameFirst(c));
    var i := if |c| < 2 then |c| else FindKey(c, "name", 2);
    if i + 1 < |c| { assert p[i / 2].0.value == "name"; }
    forall k | 0 <= k < |p| && p[k].0.value == "name" ensures r == [p[k]] + p[..k] + p[k + 1..] {
      if k > 0 { FindKeyFinds(c, "name", 2, k); }
      RotatedPairs(c, k);
    }
  }

  /** Rotating by whole pairs rotates the pairs. */
  lemma RotatedPairs(c: seq<Node>, k: nat)
    requires 2 * k + 1 < |c|
    ensures var p := Pairs(c);
            Pairs([c[2 * k], c[2 * k + 1]] + c[..2 * k] + c[2 * k + 2..]) == [p[k]] + p[..k] + p[k + 1..]
    ensures k == 0 ==> [c[2 * k], c[2 * k + 1]] + c[..2 * k] + c[2 * k + 2..] == c
  {
    var p, d := Pairs(c), [c[2 * k], c[2 * k + 1]] + c[..2 * k] + c[2 * k + 2..];
    forall j | 0 <= j < |p| ensures Pairs(d)[j] == ([p[k]] + p[..k] + p[k + 1..])[j] {
    }
  }

  // ----- which layout

  lemma PairOfKey(c: seq<Node>, d: seq<Node>, p: nat, q: nat)
    requires multiset(Pairs(d)) == multiset(Pairs(c)) && KeysDistinct(Pairs(c))
    requires p < |Pairs(c)| && q < |Pairs(d)| && Pairs(d)[q].0.value == Pairs(c)[p].0.value
    ensures Pairs(d)[q] == Pairs(c)[p]
  {
    assert Pairs(d)[q] in multiset(Pairs(d));
    var k :| 0 <= k < |Pairs(c)| && Pairs(c)[k] == Pairs(d)[q];
  }

  /** The layout of a group with distinct keys whose pair `p` is its type: `name`, `type` and `proxies` lead,
      and the rest follows by the type. */
  lemma LayoutExactly(c: seq<Node>, p: nat)
    requires KeysDistinct(Pairs(c)) && p < |Pairs(c)| && Pairs(c)[p].0.value == "type" && |c| > 3
    ensures Layout(c) == ["name", "type", "proxies"] +
                         if Pairs(c)[p].1.kind == Scalar && Pairs(c)[p].1.value == "load-balance"
                         then ["url", "interval", "lazy", "strategy", "timeout", "max-failed-times"]
                         else ["url", "interval", "timeout", "max-failed-times", "lazy"]
  {
    hide MovedAll, KeysDistinct;
    var h := MovedAll(c, HEAD, 0);
    MovedAllPermutes(c, HEAD, 0);
    HeadDistinct();
    MovedAllPlaces(c, HEAD);
    assert HasKey(Pairs(c), "type");
    assert HEAD[1] == "type" && Pairs(h)[0 + 1].0.value == "type";
    PairOfKey(c, h, p, 1);
    assert Pairs(h)[1].1 == h[3];
  }

  lemma HeadDistinct()
    ensures Distinct(HEAD)
  {
  }
}
