/** Removal of empty proxy-groups: one pass, then the references to what was removed. */
module Prune {
  import opened Text
  import opened Yaml
  import opened RuleLine
  import opened Namespace
  import opened MergeNodes
  import opened RuleMerge

  datatype Retargeting = Retargeting(index: nat, oldTarget: string, newTarget: string)

  datatype Pruned = Pruned(groups: seq<Node>, rules: seq<string>, removed: seq<string>, retargets: seq<Retargeting>)

  /** The selector is never removed, and neither is the group the fallback names. */
  predicate Protected(gs: seq<Node>, selector: string, fallback: string, name: string) {
    name == DefaultSelector(selector) || (name == fallback && FindNamed(gs, fallback) < |gs|)
  }

  /** A group the pass removes: unprotected, without members. */
  predicate Doomed(gs: seq<Node>, selector: string, fallback: string, g: Node) {
    !Protected(gs, selector, fallback, Name(g)) && Members(g) == []
  }

  function Survivors(gs: seq<Node>, all: seq<Node>, selector: string, fallback: string): (r: seq<Node>) {
    if gs == [] then [] else
      var g := gs[|gs| - 1];
      Survivors(gs[..|gs| - 1], all, selector, fallback) + (if Doomed(all, selector, fallback, g) then [] else [g])
  }

  function RemovedNames(gs: seq<Node>, all: seq<Node>, selector: string, fallback: string): (r: seq<string>) {
    if gs == [] then [] else
      var g := gs[|gs| - 1];
      RemovedNames(gs[..|gs| - 1], all, selector, fallback)
        + (if Doomed(all, selector, fallback, g) then [Name(g)] else [])
  }

  function ToSet(s: seq<string>): (r: set<string>) { set x | x in s }

  /** The members that are still defined. */
  function KeptMembers(ms: seq<string>, removed: set<string>): (r: seq<string>)
    ensures forall x :: x in r <==> x in ms && x !in removed
  {
    if ms == [] then [] else
      var m := ms[|ms| - 1];
      assert ms == ms[..|ms| - 1] + [m];
      KeptMembers(ms[..|ms| - 1], removed) + (if m in removed then [] else [m])
  }

  /** In order. */
  lemma {:induction false} KeptExactly(ms: seq<string>, removed: set<string>) returns (at: seq<nat>)
    ensures Selects(ms, at, KeptMembers(ms, removed))
    ensures forall i: nat :: i in at <==> i < |ms| && ms[i] !in removed
  {
    hide Selects, KeptMembers;
    if ms == [] {
      at := [];
      NoneKept(removed);
      NothingSelected(ms);
    } else {
      var init, m := ms[..|ms| - 1], ms[|ms| - 1];
      assert ms == init + [m];
      at := KeptExactly(init, removed);
      SelectsMore(init, at, KeptMembers(init, removed), m);
      KeptStep(ms, removed);
      assert forall i :: 0 <= i < |init| ==> ms[i] == init[i];
      if m !in removed { at := at + [|init|]; }
    }
  }

  lemma KeptStep(ms: seq<string>, removed: set<string>)
    requires ms != []
    ensures var init, m := ms[..|ms| - 1], ms[|ms| - 1];
            KeptMembers(ms, removed) == if m in removed then KeptMembers(init, removed)
                                        else KeptMembers(init, removed) + [m]
  {
  }

  lemma NoneKept(removed: set<string>)
    ensures KeptMembers([], removed) == []
  {
  }

  function CleanGroup(g: Node, removed: set<string>): (r: Node) {
    if KeptMembers(Members(g), removed) == Members(g) then g else SetMembers(g, KeptMembers(Members(g), removed))
  }

  function CleanGroups(gs: seq<Node>, removed: set<string>): (r: seq<Node>)
    ensures |r| == |gs|
  {
    seq(|gs|, i requires 0 <= i < |gs| => CleanGroup(gs[i], removed))
  }

  lemma SomeMembers(g: Node)
    requires Members(g) != []
    ensures g.kind == Mapping
  {
  }

  /** Cleaning a group drops the removed names from its member list and leaves everything else. */
  lemma CleanedExactly(g: Node, removed: set<string>) returns (at: seq<nat>)
    requires Paired(g)
    ensures var r := CleanGroup(g, removed);
            && r.kind == g.kind && r.tag == g.tag && r.head == g.head
            && (forall key :: key != "proxies" ==> GetNode(r, key) == GetNode(g, key))
            && Selects(Members(g), at, Members(r))
    ensures forall i: nat :: i in at <==> i < |Members(g)| && Members(g)[i] !in removed
  {
    hide GetNode, SetValue, KeptMembers, Selects, Paired;
    var kept := KeptMembers(Members(g), removed);
    NoneKept(removed);
    at := KeptExactly(Members(g), removed);
    if kept != Members(g) {
      SomeMembers(g);
      SetMembersLaws(g, kept);
      SetValueShape(g, "proxies", MemberList(kept));
      forall key | key != "proxies" { SetValueOther(g, "proxies", MemberList(kept), key); }
    }
  }

  function Retargets(rules: seq<string>, removed: set<string>, fallback: string): (r: seq<Retargeting>) {
    if rules == [] then [] else
      var t := Target(rules[|rules| - 1]);
      Retargets(rules[..|rules| - 1], removed, fallback) +
      if t.Some? && t.value in removed then [Retargeting(|rules| - 1, t.value, fallback)] else []
  }

  /** The log of redirected rules is exact. */
  lemma {:induction false} RetargetsExactly(rules: seq<string>, removed: set<string>, fallback: string, r: Retargeting)
    ensures r in Retargets(rules, removed, fallback) <==>
            r.index < |rules| && Target(rules[r.index]) == Some(r.oldTarget) && r.oldTarget in removed
              && r.newTarget == fallback
  {
    hide Target;
    if rules != [] {
      RetargetsExactly(rules[..|rules| - 1], removed, fallback, r);
      assert r.index < |rules| - 1 ==> rules[..|rules| - 1][r.index] == rules[r.index];
    }
  }

  /** `PruneEmptyProxyGroups` as a value. */
  function PruneGroups(gs: seq<Node>, rules: seq<string>, selector: string, fallback: string): (r: Pruned) {
    var removed := RemovedNames(gs, gs, selector, fallback);
    if removed == [] then Pruned(gs, rules, [], [])
    else
      var gone := ToSet(removed);
      Pruned(CleanGroups(Survivors(gs, gs, selector, fallback), gone), PruneRules(rules, gone, fallback), removed,
             Retargets(rules, gone, fallback))
  }

  // ----- laws

  lemma {:induction false} SurvivorsLaw(gs: seq<Node>, all: seq<Node>, selector: string, fallback: string)
    ensures forall g :: g in Survivors(gs, all, selector, fallback) <==> g in gs && !Doomed(all, selector, fallback, g)
    ensures forall x :: x in RemovedNames(gs, all, selector, fallback) <==>
              exists g :: g in gs && Doomed(all, selector, fallback, g) && Name(g) == x
  {
    if gs != [] {
      var init, g := gs[..|gs| - 1], gs[|gs| - 1];
      SurvivorsLaw(init, all, selector, fallback);
      assert gs == init + [g];
      forall x | x in RemovedNames(gs, all, selector, fallback)
        ensures exists h :: h in gs && Doomed(all, selector, fallback, h) && Name(h) == x
      {
        if x in RemovedNames(init, all, selector, fallback) {
          var h :| h in init && Doomed(all, selector, fallback, h) && Name(h) == x;
          assert h in gs;
        } else {
          assert g in gs;
        }
      }
    }
  }

  /** The pass keeps the order of the groups: what survives are those with a member, the selector and the
      group the fallback names. */
  lemma {:induction false} SurvivorsExactly(gs: seq<Node>, all: seq<Node>, selector: string,
                                            fallback: string) returns (at: seq<nat>)
    requires forall g :: g in gs ==> g in all
    ensures Selects(gs, at, Survivors(gs, all, selector, fallback))
    ensures forall i: nat :: i in at <==>
              && i < |gs|
              && (Members(gs[i]) != [] || Name(gs[i]) == (if selector == "" then "Proxies" else selector)
                  || Name(gs[i]) == fallback)
  {
    hide Selects, Members, Name, Protected;
    if gs == [] {
      at := [];
      NothingSelected(gs);
    } else {
      var init, g := gs[..|gs| - 1], gs[|gs| - 1];
      assert gs == init + [g];
      at := SurvivorsExactly(init, all, selector, fallback);
      var kept := Survivors(init, all, selector, fallback);
      SelectsMore(init, at, kept, g);
      assert Survivors(gs, all, selector, fallback) == if Doomed(all, selector, fallback, g) then kept else kept + [g];
      assert forall i :: 0 <= i < |init| ==> gs[i] == init[i];
      assert g in gs;
      ProtectedExactly(all, selector, fallback, g);
      if !Doomed(all, selector, fallback, g) { at := at + [|init|]; }
    }
  }

  lemma ProtectedExactly(all: seq<Node>, selector: string, fallback: string, g: Node)
    requires g in all
    ensures Protected(all, selector, fallback, Name(g)) <==>
            Name(g) == (if selector == "" then "Proxies" else selector) || Name(g) == fallback
  {
    hide Name;
    var i :| 0 <= i < |all| && all[i] == g;
  }

  lemma {:induction false} NothingRemoved(gs: seq<Node>, all: seq<Node>, selector: string, fallback: string)
    requires RemovedNames(gs, all, selector, fallback) == []
    ensures Survivors(gs, all, selector, fallback) == gs
  {
    hide Doomed;
    if gs != [] {
      var init, g := gs[..|gs| - 1], gs[|gs| - 1];
      assert !Doomed(all, selector, fallback, g);
      NothingRemoved(init, all, selector, fallback);
      assert gs == init + [g];
    }
  }

  lemma {:induction false} KeepAll(ms: seq<string>)
    ensures KeptMembers(ms, {}) == ms
  {
    if ms != [] {
      var init, m := ms[..|ms| - 1], ms[|ms| - 1];
      KeepAll(init);
      assert KeptMembers(ms, {}) == KeptMembers(init, {}) + [m];
      assert ms == init + [m];
    }
  }

  /** Keeping changes nothing exactly when no member is removed. */
  lemma {:induction false} KeepsAllExactly(ms: seq<string>, removed: set<string>)
    ensures KeptMembers(ms, removed) == ms <==> forall x :: x in ms ==> x !in removed
    ensures |KeptMembers(ms, removed)| <= |ms|
  {
    if ms != [] {
      var init, m := ms[..|ms| - 1], ms[|ms| - 1];
      KeepsAllExactly(init, removed);
      assert ms == init + [m];
    }
  }

  lemma {:induction false} SurvivorsAppend(a: seq<Node>, b: seq<Node>, all: seq<Node>, selector: string,
                                           fallback: string)
    requires forall g :: g in b ==> Members(g) != []
    ensures Survivors(a + b, all, selector, fallback) == Survivors(a, all, selector, fallback) + b
  {
    hide Members, Protected;
    if b == [] {
      assert a + b == a;
    } else {
      var init, g := b[..|b| - 1], b[|b| - 1];
      SurvivorsAppend(a, init, all, selector, fallback);
      assert (a + b)[..|a + b| - 1] == a + init && (a + b)[|a + b| - 1] == g;
      assert g in b && init + [g] == b;
    }
  }

  lemma CleanAppend(a: seq<Node>, b: seq<Node>, removed: set<string>)
    ensures CleanGroups(a + b, removed) == CleanGroups(a, removed) + CleanGroups(b, removed)
  {
    hide CleanGroup;
  }

  /** Groups with members at the end of the list stay there, each minus the removed names. */
  lemma PrunedTail(gs: seq<Node>, rules: seq<string>, selector: string, fallback: string, m: nat) returns (n: nat)
    requires m <= |gs| && forall g :: g in gs[m..] ==> Members(g) != []
    ensures var out, gone := PruneGroups(gs, rules, selector, fallback).groups,
            ToSet(RemovedNames(gs, gs, selector, fallback));
            n <= |out| && out[n..] == CleanGroups(gs[m..], gone)
  {
    hide Members, PruneGroups, Survivors, RemovedNames, CleanGroups;
    assert gs == gs[..m] + gs[m..];
    SurvivorsAppend(gs[..m], gs[m..], gs, selector, fallback);
    PruneUniform(gs, rules, selector, fallback);
    CleanAppend(Survivors(gs[..m], gs, selector, fallback), gs[m..], ToSet(RemovedNames(gs, gs, selector, fallback)));
    n := |Survivors(gs[..m], gs, selector, fallback)|;
  }

  lemma CleanGroupLaw(g: Node, removed: set<string>)
    requires IsGroup(g)
    ensures IsGroup(CleanGroup(g, removed)) && Name(CleanGroup(g, removed)) == Name(g)
    ensures Members(CleanGroup(g, removed)) == KeptMembers(Members(g), removed)
  {
    var ms := KeptMembers(Members(g), removed);
    if ms != Members(g) {
      SetMembersLaws(g, ms);
      SetValueOther(g, "proxies", MemberList(ms), "name");
    }
  }

  /** The early return when nothing is empty agrees with the general case. */
  lemma PruneUniform(gs: seq<Node>, rules: seq<string>, selector: string, fallback: string)
    ensures var gone := ToSet(RemovedNames(gs, gs, selector, fallback));
            var p := PruneGroups(gs, rules, selector, fallback);
            && p.groups == CleanGroups(Survivors(gs, gs, selector, fallback), gone)
            && p.rules == PruneRules(rules, gone, fallback)
  {
    if RemovedNames(gs, gs, selector, fallback) == [] {
      var gone := ToSet(RemovedNames(gs, gs, selector, fallback));
      assert gone == {};
      NothingRemoved(gs, gs, selector, fallback);
      forall i | 0 <= i < |gs| ensures CleanGroup(gs[i], gone) == gs[i] { KeepAll(Members(gs[i])); }
      assert CleanGroups(gs, gone) == gs;
      assert PruneRules(rules, gone, fallback) == rules;
    }
  }

  /** A name that resolves: a built-in, an emitted proxy or an emitted group. */
  ghost predicate Resolves(name: string, proxies: seq<Node>, gs: seq<Node>) {
    name in BUILTINS || NodeNamed(proxies, name) || NodeNamed(gs, name)
  }

  /** Exactly the doomed groups go, in one pass; a surviving group keeps its name, its place and
      its members minus the removed names. */
  lemma PruneMembersLaw(gs: seq<Node>, rules: seq<string>, selector: string, fallback: string, k: nat)
    requires AllGroups(gs) && k < |PruneGroups(gs, rules, selector, fallback).groups|
    ensures var kept := Survivors(gs, gs, selector, fallback);
            var g := PruneGroups(gs, rules, selector, fallback).groups[k];
            && k < |kept| && kept[k] in gs && !Doomed(gs, selector, fallback, kept[k])
            && IsGroup(g) && Name(g) == Name(kept[k])
            && Members(g) == KeptMembers(Members(kept[k]), ToSet(RemovedNames(gs, gs, selector, fallback)))
  {
    PruneUniform(gs, rules, selector, fallback);
    SurvivorsLaw(gs, gs, selector, fallback);
    var kept := Survivors(gs, gs, selector, fallback);
    assert kept[k] in kept;
    CleanGroupLaw(kept[k], ToSet(RemovedNames(gs, gs, selector, fallback)));
  }

  /** A name whose groups all survive still names an emitted group. */
  lemma SurvivingName(gs: seq<Node>, rules: seq<string>, selector: string, fallback: string, g: Node)
    requires AllGroups(gs) && g in gs && !Doomed(gs, selector, fallback, g)
    ensures NodeNamed(PruneGroups(gs, rules, selector, fallback).groups, Name(g))
  {
    PruneUniform(gs, rules, selector, fallback);
    SurvivorsLaw(gs, gs, selector, fallback);
    var kept := Survivors(gs, gs, selector, fallback);
    assert g in kept;
    var i :| 0 <= i < |kept| && kept[i] == g;
    CleanGroupLaw(g, ToSet(RemovedNames(gs, gs, selector, fallback)));
    assert Name(PruneGroups(gs, rules, selector, fallback).groups[i]) == Name(g);
  }

  lemma ResolvedSurvives(gs: seq<Node>, rules: seq<string>, selector: string, fallback: string, proxies: seq<Node>,
                         name: string)
    requires AllGroups(gs) && Resolves(name, proxies, gs)
    requires name !in RemovedNames(gs, gs, selector, fallback)
    ensures Resolves(name, proxies, PruneGroups(gs, rules, selector, fallback).groups)
  {
    SurvivorsLaw(gs, gs, selector, fallback);
    if name !in BUILTINS && !NodeNamed(proxies, name) {
      var i :| 0 <= i < |gs| && Name(gs[i]) == name;
      assert gs[i] in gs;
      SurvivingName(gs, rules, selector, fallback, gs[i]);
    }
  }

  /** A name is served exactly when some group of that name is not doomed. */
  lemma ServedNameExactly(gs: seq<Node>, rules: seq<string>, selector: string, fallback: string, x: string)
    requires AllGroups(gs)
    ensures NodeNamed(PruneGroups(gs, rules, selector, fallback).groups, x) <==>
            exists g :: g in gs && Name(g) == x && !Doomed(gs, selector, fallback, g)
  {
    hide PruneGroups, Doomed, Survivors, Name, AllGroups;
    var out := PruneGroups(gs, rules, selector, fallback).groups;
    if NodeNamed(out, x) {
      var k :| 0 <= k < |out| && Name(out[k]) == x;
      PruneMembersLaw(gs, rules, selector, fallback, k);
    }
    if g :| g in gs && Name(g) == x && !Doomed(gs, selector, fallback, g) {
      SurvivingName(gs, rules, selector, fallback, g);
    }
  }

  /** The fallback still resolves after pruning if it did before: its group is protected. */
  lemma FallbackSurvives(gs: seq<Node>, selector: string, fallback: string)
    ensures fallback !in RemovedNames(gs, gs, selector, fallback)
  {
    SurvivorsLaw(gs, gs, selector, fallback);
  }

  /** Pruning keeps references closed: members that resolved before resolve after. */
  lemma PruneClosesMembers(gs: seq<Node>, rules: seq<string>, selector: string, fallback: string, proxies: seq<Node>,
                           k: nat, m: string)
    requires AllGroups(gs)
    requires forall i, j :: 0 <= i < |gs| && 0 <= j < |Members(gs[i])| ==> Resolves(Members(gs[i])[j], proxies, gs)
    requires var gs' := PruneGroups(gs, rules, selector, fallback).groups; k < |gs'| && m in Members(gs'[k])
    ensures Resolves(m, proxies, PruneGroups(gs, rules, selector, fallback).groups)
  {
    PruneMembersLaw(gs, rules, selector, fallback, k);
    var g := Survivors(gs, gs, selector, fallback)[k];
    var i :| 0 <= i < |gs| && gs[i] == g;
    assert m in Members(g);
    var j :| 0 <= j < |Members(g)| && Members(g)[j] == m;
    assert Resolves(Members(gs[i])[j], proxies, gs);
    ResolvedSurvives(gs, rules, selector, fallback, proxies, m);
  }

  /** Pruning keeps rule targets closed: a removed target becomes the fallback. */
  lemma PruneClosesTargets(gs: seq<Node>, rules: seq<string>, selector: string, fallback: string, proxies: seq<Node>,
                           k: nat)
    requires AllGroups(gs) && TargetName(fallback) && Resolves(fallback, proxies, gs)
    requires k < |rules| && Target(rules[k]).Some? && Resolves(Target(rules[k]).value, proxies, gs)
    ensures var p := PruneGroups(gs, rules, selector, fallback);
            && |p.rules| == |rules| && Target(p.rules[k]).Some? && Resolves(Target(p.rules[k]).value, proxies, p.groups)
  {
    PruneUniform(gs, rules, selector, fallback);
    var gone := ToSet(RemovedNames(gs, gs, selector, fallback));
    PruneRuleLaw(rules[k], gone, fallback);
    FallbackSurvives(gs, selector, fallback);
    ResolvedSurvives(gs, rules, selector, fallback, proxies, fallback);
    if Target(rules[k]).value !in gone {
      ResolvedSurvives(gs, rules, selector, fallback, proxies, Target(rules[k]).value);
    }
  }

  /** A served group has no members exactly when all members of that survivor named removed groups. */
  lemma ServedEmptyExactly(gs: seq<Node>, rules: seq<string>, selector: string, fallback: string, k: nat)
    requires AllGroups(gs) && k < |PruneGroups(gs, rules, selector, fallback).groups|
    ensures k < |Survivors(gs, gs, selector, fallback)|
    ensures Members(PruneGroups(gs, rules, selector, fallback).groups[k]) == [] <==>
            forall m :: m in Members(Survivors(gs, gs, selector, fallback)[k]) ==>
                   m in RemovedNames(gs, gs, selector, fallback)
  {
    PruneMembersLaw(gs, rules, selector, fallback, k);
    hide PruneGroups, Members, Survivors, KeptMembers;
    var g, removed := Survivors(gs, gs, selector, fallback)[k], ToSet(RemovedNames(gs, gs, selector, fallback));
    var kept := KeptMembers(Members(g), removed);
    assert kept != [] ==> kept[0] in kept;
  }

  /** No protected group is empty, and every group with members keeps one. */
  ghost predicate PruningFills(gs: seq<Node>, selector: string, fallback: string) {
    && (forall g :: g in gs && Members(g) == [] ==> !Protected(gs, selector, fallback, Name(g)))
    && (forall g :: g in gs && Members(g) != [] ==>
          exists m :: m in Members(g) && m !in RemovedNames(gs, gs, selector, fallback))
  }

  ghost predicate AllFilled(gs: seq<Node>) { forall k :: 0 <= k < |gs| ==> Members(gs[k]) != [] }

  lemma SurvivorAt(gs: seq<Node>, rules: seq<string>, selector: string, fallback: string, g: Node) returns (k: nat)
    requires g in gs && !Doomed(gs, selector, fallback, g)
    ensures k < |Survivors(gs, gs, selector, fallback)| && Survivors(gs, gs, selector, fallback)[k] == g
    ensures k < |PruneGroups(gs, rules, selector, fallback).groups|
  {
    hide Doomed, Survivors, PruneGroups;
    SurvivorsLaw(gs, gs, selector, fallback);
    PruneUniform(gs, rules, selector, fallback);
    assert g in Survivors(gs, gs, selector, fallback);
    k :| 0 <= k < |Survivors(gs, gs, selector, fallback)| && Survivors(gs, gs, selector, fallback)[k] == g;
  }

  /** Every served group has a member exactly when no protected group is empty and no surviving
      group's members all name removed groups. */
  lemma PruneFillsExactly(gs: seq<Node>, rules: seq<string>, selector: string, fallback: string)
    requires AllGroups(gs)
    ensures AllFilled(PruneGroups(gs, rules, selector, fallback).groups) <==> PruningFills(gs, selector, fallback)
  {
    hide PruneGroups, Members, Survivors, Protected, AllGroups, RemovedNames, Name;
    var out := PruneGroups(gs, rules, selector, fallback).groups;
    if PruningFills(gs, selector, fallback) {
      forall k | 0 <= k < |out| ensures Members(out[k]) != [] {
        PruneMembersLaw(gs, rules, selector, fallback, k);
        ServedEmptyExactly(gs, rules, selector, fallback, k);
      }
    }
    if AllFilled(out) {
      forall g | g in gs && !Doomed(gs, selector, fallback, g)
        ensures exists m :: m in Members(g) && m !in RemovedNames(gs, gs, selector, fallback)
      {
        var k := SurvivorAt(gs, rules, selector, fallback, g);
        ServedEmptyExactly(gs, rules, selector, fallback, k);
      }
    }
  }

  lemma OneRound(inner: Node, outer: Node)
    requires IsGroup(inner) && Name(inner) == "_inner" && Members(inner) == []
    requires IsGroup(outer) && Name(outer) == "_outer" && Members(outer) == ["_inner"]
    ensures var p := PruneGroups([inner, outer], [], "Proxies", "DIRECT");
            |p.groups| == 1 && Name(p.groups[0]) == "_outer" && Members(p.groups[0]) == []
  {
    hide Name, Members, IsGroup, CleanGroup, Doomed, Survivors, RemovedNames, KeptMembers;
    var gs := [inner, outer];
    OneDoomed(inner, outer);
    NobodyYet(gs, "Proxies", "DIRECT");
    SurvivorsSnoc(gs, 0, gs, "Proxies", "DIRECT");
    SurvivorsSnoc(gs, 1, gs, "Proxies", "DIRECT");
    assert gs[..0] == [] && gs[..2] == gs;
    assert RemovedNames(gs, gs, "Proxies", "DIRECT") == ["_inner"];
    KeptStep(["_inner"], ToSet(["_inner"]));
    NoneKept(ToSet(["_inner"]));
    assert ["_inner"][..0] == [] && "_inner" in ToSet(["_inner"]);
    CleanGroupLaw(outer, ToSet(["_inner"]));
  }

  lemma SurvivorsSnoc(vs: seq<Node>, i: nat, all: seq<Node>, selector: string, fallback: string)
    requires i < |vs|
    ensures var doomed := Doomed(all, selector, fallback, vs[i]);
            && Survivors(vs[..i + 1], all, selector, fallback) == Survivors(vs[..i], all, selector, fallback)
               + (if doomed then [] else [vs[i]])
            && RemovedNames(vs[..i + 1], all, selector, fallback)
               == RemovedNames(vs[..i], all, selector, fallback) + (if doomed then [Name(vs[i])] else [])
  {
    hide Doomed;
    assert vs[..i + 1][..i] == vs[..i];
  }

  lemma NobodyYet(all: seq<Node>, selector: string, fallback: string)
    ensures Survivors([], all, selector, fallback) == [] && RemovedNames([], all, selector, fallback) == []
  {
  }

  lemma OneDoomed(inner: Node, outer: Node)
    requires Name(inner) == "_inner" && Members(inner) == [] && Name(outer) == "_outer" && Members(outer) != []
    ensures Doomed([inner, outer], "Proxies", "DIRECT", inner) && !Doomed([inner, outer], "Proxies", "DIRECT", outer)
  {
    hide Name, Members;
  }

  /** Pruning does not cascade: a group whose members all pointed at removed groups is served
      empty. */
  lemma PruneDoesNotCascade()
    ensures var inner, outer := SelectorNode("_inner", []), SelectorNode("_outer", ["_inner"]);
            var p := PruneGroups([inner, outer], [], "Proxies", "DIRECT");
            |p.groups| == 1 && Name(p.groups[0]) == "_outer" && Members(p.groups[0]) == []
  {
    hide PruneGroups, Name, Members, SelectorNode;
    SelectorNodeLaw("_inner", []);
    SelectorNodeLaw("_outer", ["_inner"]);
    OneRound(SelectorNode("_inner", []), SelectorNode("_outer", ["_inner"]));
  }
}
