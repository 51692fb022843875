/** The priority headers over the served rules: one head comment per priority, on its first rule,
    naming that priority's contributors. */
module Comments {
  import opened Text
  import opened Sorting
  import opened Yaml
  import opened MergeNodes
  import opened RuleMerge
  import opened Userinfo

  /** `strings.Join(names, ", ")` */
  function Listed(names: seq<string>): (s: string) {
    if names == [] then "" else if |names| == 1 then names[0]
       else Listed(names[..|names| - 1]) + ", " + names[|names| - 1]
  }

  function Header(priority: int, names: seq<string>): (s: string) {
    "# --- priority " + Print(priority) + " (" + Listed(names) + ") ---"
  }

  /** Where the run of equal priorities that starts at or before `i` ends. */
  function RunEnd(priorities: seq<int>, n: nat, i: nat): (e: nat)
    requires i < n <= |priorities|
    ensures i < e <= n
    ensures forall k :: i <= k < e ==> priorities[k] == priorities[i]
    ensures e < n ==> priorities[e] != priorities[i]
    decreases n - i
  {
    if i + 1 == n || priorities[i + 1] != priorities[i] then i + 1 else RunEnd(priorities, n, i + 1)
  }

  /** The non-empty names among positions `from` to `to`. */
  function NamesIn(contributors: seq<string>, from: nat, to: nat): (r: set<string>)
    requires from <= to <= |contributors|
  {
    set k | from <= k < to && contributors[k] != "" :: contributors[k]
  }

  predicate StartsRun(priorities: seq<int>, i: nat)
    requires i < |priorities|
  {
    priorities[i] != 0 && (i == 0 || priorities[i - 1] != priorities[i])
  }

  /** The header the rule at `i` gets among the first `n`, if any. */
  ghost function HeaderAt(priorities: seq<int>, contributors: seq<string>, n: nat, i: nat): (h: Option<string>)
    requires i < n <= |priorities| && n <= |contributors|
  {
    if !StartsRun(priorities, i) then None
    else Some(Header(priorities[i], SortedKeys(NamesIn(contributors, i, RunEnd(priorities, n, i)))))
  }

  function WithHeader(rule: Node, h: Option<string>): (r: Node) { if h.Some? then rule.(head := h.value) else rule }

  /** The rule nodes with headers on the first `n`. */
  ghost predicate Headed(before: seq<Node>, after: seq<Node>, priorities: seq<int>, contributors: seq<string>, n: nat,
                         upTo: nat)
    requires n <= |priorities| && n <= |contributors| && n <= |before|
  {
    && |after| == |before|
    && (forall i :: 0 <= i < |before| && i < upTo && i < n ==>
          after[i] == WithHeader(before[i], HeaderAt(priorities, contributors, n, i)))
    && (forall i :: 0 <= i < |before| && (upTo <= i || n <= i) ==> after[i] == before[i])
  }

  /** The inner loop: the distinct non-empty names of a run. */
  method CollectNames(contributors: seq<string>, from: nat, to: nat) returns (names: seq<string>)
    requires from <= to <= |contributors|
    ensures names == SortedKeys(NamesIn(contributors, from, to))
  {
    hide SortStrings, SortedKeys;
    var seen: set<string> := {};
    names := [];
    for k := from to to
      invariant seen == NamesIn(contributors, from, k) && Distinct(names) && forall x :: x in names <==> x in seen
    {
      var c := contributors[k];
      if c != "" && c !in seen {
        seen, names := seen + {c}, names + [c];
      }
    }
    SortedKeysAnyOrder(NamesIn(contributors, from, to), names);
    names := SortStrings(names);
  }

  function Min3(a: nat, b: nat, c: nat): (m: nat)
    ensures m <= a && m <= b && m <= c
  {
    if a <= b && a <= c then a else if b <= c then b else c
  }

  method FindRunEnd(priorities: seq<int>, n: nat, i: nat) returns (e: nat)
    requires i < n <= |priorities|
    ensures e == RunEnd(priorities, n, i)
  {
    e := i + 1;
    while e < n && priorities[e] == priorities[i]
      invariant i < e <= n && forall k :: i <= k < e ==> priorities[k] == priorities[i]
    {
      e := e + 1;
    }
    RunEndIs(priorities, n, i, e);
  }

  lemma {:induction false} RunEndIs(priorities: seq<int>, n: nat, i: nat, e: nat)
    requires i < e <= n <= |priorities| && (forall k :: i <= k < e ==> priorities[k] == priorities[i])
    requires e < n ==> priorities[e] != priorities[i]
    ensures RunEnd(priorities, n, i) == e
    decreases n - i
  {
    if i + 1 < e { RunEndIs(priorities, n, i + 1, e); }
  }

  /** `normalizeRulesPriorityComments` on the content of the rules sequence. */
  method NormalizeRulesPriorityComments(rules: array<Node>, priorities: seq<int>, contributors: seq<string>)
    modifies rules
    ensures Headed(old(rules[..]), rules[..], priorities, contributors,
                   Min3(rules.Length, |priorities|, |contributors|), rules.Length)
  {
    hide Header, SortedKeys, RunEnd, NamesIn;
    var n := Min3(rules.Length, |priorities|, |contributors|);
    ghost var before := rules[..];
    var idx := 0;
    while idx < n
      invariant idx <= n && Headed(before, rules[..], priorities, contributors, n, idx)
      invariant 0 < idx < n ==> priorities[idx - 1] != priorities[idx] || priorities[idx] == 0
    {
      if priorities[idx] == 0 {
        idx := idx + 1;
        continue;
      }
      var end := FindRunEnd(priorities, n, idx);
      var names := CollectNames(contributors, idx, end);
      rules[idx] := rules[idx].(head := Header(priorities[idx], names));
      idx := end;
    }
  }

  // ----- on the merged rules

  /** Ascending, and the fallback's 0 at the end. */
  ghost predicate AscendingThenZero(ps: seq<int>) {
    && ps != [] && ps[|ps| - 1] == 0
    && forall i, j :: 0 <= i < j < |ps| - 1 ==> ps[i] <= ps[j]
  }

  ghost predicate PrioritiesAscend(ps: seq<int>) { forall i, j :: 0 <= i < j < |ps| ==> ps[i] <= ps[j] }

  lemma {:induction false} EmittedAscend(sorted: seq<Contributor>)
    requires forall i, j :: 0 <= i < j < |sorted| ==> sorted[i].priority <= sorted[j].priority
    ensures PrioritiesAscend(EmitAll(sorted).priorities)
    ensures forall k :: 0 <= k < |EmitAll(sorted).priorities| ==>
              exists i :: 0 <= i < |sorted| && EmitAll(sorted).priorities[k] == sorted[i].priority
  {
    if sorted != [] {
      var init, c := sorted[..|sorted| - 1], sorted[|sorted| - 1];
      EmittedAscend(init);
      var a, r := EmitAll(init).priorities, EmitAll(sorted).priorities;
      forall k | 0 <= k < |r| ensures exists i :: 0 <= i < |sorted| && r[k] == sorted[i].priority {
        if k < |a| {
          var i :| 0 <= i < |init| && a[k] == init[i].priority;
          assert r[k] == sorted[i].priority;
        } else {
          assert r[k] == sorted[|sorted| - 1].priority;
        }
      }
      forall k | 0 <= k < |a| ensures a[k] <= c.priority {
        var i :| 0 <= i < |init| && a[k] == init[i].priority;
        assert sorted[i].priority <= sorted[|sorted| - 1].priority;
      }
    }
  }

  lemma MergedPriorities(cs: seq<Contributor>, fallback: string)
    ensures AscendingThenZero(Merged(cs, fallback).priorities)
  {
    hide StableSort;
    EarlierIsStrictWeak();
    StableSortIsStable(cs, Earlier);
    EmittedAscend(StableSort(cs, Earlier));
  }

  /** All non-empty contributors of a priority, wherever their rules are. */
  ghost function NamesOf(m: MergedRules, p: int): (r: set<string>)
    requires Aligned(m)
  {
    set k | 0 <= k < |m.priorities| && m.priorities[k] == p && m.contributors[k] != "" :: m.contributors[k]
  }

  lemma RunFrom(ps: seq<int>, i: nat, k: nat, e: nat)
    requires AscendingThenZero(ps) && i < e <= |ps| && StartsRun(ps, i) && k < |ps|
    requires ps[e - 1] == ps[i] && (e < |ps| ==> ps[e] != ps[i])
    ensures ps[k] == ps[i] <==> i <= k < e
  {
    var last := |ps| - 1;
    if k < i { assert k == i - 1 || ps[k] <= ps[i - 1]; assert ps[i - 1] <= ps[i]; }
    else if e <= k < last { assert k == e || ps[e] <= ps[k]; assert ps[i] <= ps[e]; }
    else if i < k < e { assert ps[i] <= ps[k]; assert k == e - 1 || ps[k] <= ps[e - 1]; }
  }

  /** A run of a non-zero priority holds all its rules. */
  lemma RunIsWhole(ps: seq<int>, i: nat, k: nat)
    requires AscendingThenZero(ps) && i < |ps| && StartsRun(ps, i) && k < |ps|
    ensures ps[k] == ps[i] <==> i <= k < RunEnd(ps, |ps|, i)
  {
    hide RunEnd;
    RunFrom(ps, i, k, RunEnd(ps, |ps|, i));
  }

  lemma FirstOfPriority(ps: seq<int>, i: nat)
    requires AscendingThenZero(ps) && i < |ps|
    ensures StartsRun(ps, i) <==> ps[i] != 0 && forall k :: 0 <= k < i ==> ps[k] != ps[i]
  {
    if StartsRun(ps, i) {
      forall k | 0 <= k < i ensures ps[k] != ps[i] {
        RunIsWhole(ps, i, k);
      }
    }
  }

  /** On the merged rule list a header stands exactly on the first rule of each non-zero priority,
      and lists exactly that priority's contributors, sorted and each once. */
  lemma HeadersOnMerged(cs: seq<Contributor>, fallback: string, i: nat)
    requires i < |Merged(cs, fallback).priorities|
    ensures var m := Merged(cs, fallback);
            var h := HeaderAt(m.priorities, m.contributors, |m.priorities|, i);
            && (h.Some? <==> m.priorities[i] != 0 && forall k :: 0 <= k < i ==> m.priorities[k] != m.priorities[i])
            && (h.Some? ==> h.value == Header(m.priorities[i], SortedKeys(NamesOf(m, m.priorities[i]))))
  {
    hide Merged, Header, SortedKeys, RunEnd;
    var m := Merged(cs, fallback);
    var ps := m.priorities;
    MergedPriorities(cs, fallback);
    FirstOfPriority(ps, i);
    if StartsRun(ps, i) {
      var e := RunEnd(ps, |ps|, i);
      forall x ensures x in NamesIn(m.contributors, i, e) <==> x in NamesOf(m, ps[i]) {
        if x in NamesOf(m, ps[i]) {
          var k :| 0 <= k < |ps| && ps[k] == ps[i] && m.contributors[k] == x && x != "";
          RunIsWhole(ps, i, k);
        }
      }
      assert NamesIn(m.contributors, i, e) == NamesOf(m, ps[i]);
    }
  }

  /** What writing the headers leaves of every rule: all of it but the head comment, and that too where no
      header starts. */
  lemma OnlyHeadsChange(before: seq<Node>, after: seq<Node>, priorities: seq<int>, contributors: seq<string>, n: nat,
                        i: nat)
    requires n <= |priorities| && n <= |contributors| && n <= |before| && i < |before|
    requires Headed(before, after, priorities, contributors, n, |before|)
    ensures |after| == |before| && after[i] == before[i].(head := after[i].head)
    ensures after[i].head == if i < n && HeaderAt(priorities, contributors, n, i).Some?
                             then HeaderAt(priorities, contributors, n, i).value else before[i].head
  {
    hide HeaderAt;
  }

  // ----- the header's text

  /** Every name but the first behind a space. */
  function Spaced(names: seq<string>): (r: seq<string>) {
    seq(|names|, k requires 0 <= k < |names| => if k == 0 then names[k] else " " + names[k])
  }

  lemma {:induction false} JoinSnoc(parts: seq<string>, last: string, sep: char)
    requires parts != []
    ensures Join(parts + [last], sep) == Join(parts, sep) + [sep] + last
  {
    var all := parts + [last];
    if |parts| == 1 {
      assert all[1..] == [last];
    } else {
      JoinSnoc(parts[1..], last, sep);
      assert all[1..] == parts[1..] + [last];
    }
  }

  lemma {:induction false} ListedIsJoin(names: seq<string>)
    ensures Listed(names) == Join(Spaced(names), ',')
  {
    if |names| > 1 {
      var init, last := names[..|names| - 1], names[|names| - 1];
      ListedIsJoin(init);
      assert Spaced(names) == Spaced(init) + [" " + last];
      JoinSnoc(Spaced(init), " " + last, ',');
      assert ", " + last == [','] + (" " + last);
    } else if |names| == 1 {
      assert Spaced(names) == [names[0]];
    }
  }

  /** The header reads `# --- priority`, the number, and in brackets the names with a comma and a space
      between them, between two rules of dashes. */
  lemma HeaderExactly(priority: int, names: seq<string>)
    ensures Header(priority, names)
         == "# --- priority " + Print(priority) + " (" + Join(Spaced(names), ',') + ") ---"
  {
    ListedIsJoin(names);
  }
}
