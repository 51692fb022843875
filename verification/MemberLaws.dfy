/** What becomes of the members of every group that enters a build. */
module MemberLaws {
  import opened Text
  import opened Sorting
  import opened Yaml
  import opened RuleLine
  import opened Subscriptions
  import opened Namespace
  import opened MergeNodes
  import opened RuleMerge
  import opened RuleProviders
  import opened RegionTable
  import opened Regions
  import opened Prune
  import opened Fanout
  import opened Pipeline
  import opened Closure
  import opened BuildLaws

  // ----- removed names

  /** Exactly which names the build removes: those of groups without members, the selector and the
      fallback excepted. */
  lemma RemovedExactly(inp: Input, x: string)
    ensures x in RemovedBy(inp) <==>
            && x != (if inp.selector == "" then "Proxies" else inp.selector) && x != inp.fallback
            && exists g :: g in StagesOf(inp, NamespacedAll(Sources(inp))).all && Name(g) == x && Members(g) == []
  {
    hide StagesOf, Sources, Name, Members;
    RemovedNamesExactly(StagesOf(inp, NamespacedAll(Sources(inp))).all, inp.selector, inp.fallback, x);
  }

  lemma RemovedNamesExactly(gs: seq<Node>, selector: string, fallback: string, x: string)
    ensures x in ToSet(RemovedNames(gs, gs, selector, fallback)) <==>
            x != (if selector == "" then "Proxies" else selector) && x != fallback
              && exists g :: g in gs && Name(g) == x && Members(g) == []
  {
    hide Name, Members, RemovedNames, Survivors;
    SurvivorsLaw(gs, gs, selector, fallback);
    forall g | g in gs
      ensures Doomed(gs, selector, fallback, g) <==>
              Name(g) != DefaultSelector(selector) && Name(g) != fallback && Members(g) == []
    {
      var i :| 0 <= i < |gs| && gs[i] == g;
    }
  }

  // ----- from the merged groups to the served ones

  /** A later stage keeps the group's name and puts what it adds behind its members; it adds to the
      selector only. */
  ghost predicate Grows(g: Node, r: Node, selector: string) {
    Name(r) == Name(g) && Members(g) <= Members(r) && (Name(g) != selector ==> r == g)
  }

  lemma SelectorGrows(gs: seq<Node>, names: seq<string>, selector: string, i: nat)
    requires AllGroups(gs) && selector != "" && i < |gs|
    ensures i < |WithSelector(gs, names, selector)| && Grows(gs[i], WithSelector(gs, names, selector)[i], selector)
  {
    hide Name, Members, AddMembers, SelectorNode, IsGroup;
    WithSelectorLaw(gs, names, selector, EVERYTHING);
    AugmentLaw(gs, selector, names, EVERYTHING);
    assert Names(Augment(gs, selector, names))[i] == Names(gs)[i];
  }

  lemma GeneratedGrows(gs: seq<Node>, made: seq<Node>, names: seq<string>, selector: string, i: nat)
    requires AllGroups(gs) && AllGroups(made) && i < |gs|
    ensures i < |WithGenerated(gs, made, names, selector)|
            && Grows(gs[i], WithGenerated(gs, made, names, selector)[i], selector)
  {
    hide Name, Members, AddMembers, IsGroup;
    var all := gs + made;
    assert AllGroups(all);
    AugmentLaw(all, selector, names, EVERYTHING);
    assert Names(Augment(all, selector, names))[i] == Names(all)[i];
  }

  lemma GrowsOn(g: Node, r: Node, s: Node, selector: string)
    requires Grows(g, r, selector) && Grows(r, s, selector)
    ensures Grows(g, s, selector)
  {
    assert Members(g) == Members(r)[..|Members(g)|] == Members(s)[..|Members(g)|];
  }

  lemma PairsAreGroups(keys: seq<string>, members: map<string, seq<string>>, prefix: string, lbPrefix: string,
                       p: Params)
    requires prefix != "" && lbPrefix != ""
    ensures AllGroups(EmitPairs(keys, members, prefix, lbPrefix, p))
  {
    hide IsGroup, Name, Members;
    var made := EmitPairs(keys, members, prefix, lbPrefix, p);
    EmitPairsShape(keys, members, prefix, lbPrefix, p);
    forall i | 0 <= i < |made| ensures IsGroup(made[i]) { SiblingAt(made, keys, members, prefix, lbPrefix, i); }
  }

  lemma StagesGrow(s: Stages, names: seq<string>, selector: string, t: Tables, p: Params, i: nat)
    requires IsChain(s, names, selector, t, p) && StageLaws(s, selector) && AllGroups(s.base) && selector != ""
             && i < |s.base|
    ensures i < |s.all| && Grows(s.base[i], s.all[i], selector)
  {
    hide StageLaws, AllGroups, Grows, EmitPairs, PairNames, RegionKeys, RegionMembers, ContinentMembers, Codes,
         WithSelector, WithGenerated, IsGroup;
    StagesAreGroups(s, selector);
    SelectorGrows(s.base, names, selector, i);
    PairsAreGroups(s.regionKeys, s.regionLists, REGION, LB_REGION, p);
    GeneratedGrows(s.selected, EmitPairs(s.regionKeys, s.regionLists, REGION, LB_REGION, p),
                   PairNames(s.regionKeys, REGION, LB_REGION), selector, i);
    PairsAreGroups(s.continentKeys, s.continentLists, CONTINENT, LB_CONTINENT, p);
    GeneratedGrows(s.regions, EmitPairs(s.continentKeys, s.continentLists, CONTINENT, LB_CONTINENT, p),
                   PairNames(s.continentKeys, CONTINENT, LB_CONTINENT), selector, i);
    GrowsOn(s.base[i], s.selected[i], s.regions[i], selector);
    GrowsOn(s.base[i], s.regions[i], s.all[i], selector);
  }

  lemma StagesAreGroups(s: Stages, selector: string)
    requires StageLaws(s, selector)
    ensures AllGroups(s.selected) && AllGroups(s.regions) && AllGroups(s.all)
  {
    hide AllGroups, SiblingList, FindNamed, Name;
  }

  /** `groups` hold a group of this name that lists `x`. */
  ghost predicate Lists(groups: seq<Node>, name: string, x: string) {
    exists g :: g in groups && Name(g) == name && x in Members(g)
  }

  lemma PrunedMember(gs: seq<Node>, rules: seq<string>, selector: string, fallback: string, g: Node) returns (r: Node)
    requires AllGroups(gs) && g in gs && Members(g) != []
    ensures r in PruneGroups(gs, rules, selector, fallback).groups && Name(r) == Name(g)
    ensures forall x :: x in Members(r) <==> x in Members(g) && x !in ToSet(RemovedNames(gs, gs, selector, fallback))
  {
    hide PruneGroups, Survivors, RemovedNames, Name, Members, AllGroups;
    var k := SurvivorAt(gs, rules, selector, fallback, g);
    PruneMembersLaw(gs, rules, selector, fallback, k);
    r := PruneGroups(gs, rules, selector, fallback).groups[k];
  }

  /** The group items of a build. */
  ghost function GroupsIn(inp: Input): (r: seq<Item>) { GroupPart(inp, NamespacedAll(Sources(inp))) }

  /** `g` has this name and lists exactly the members that groups of this name came in with, minus the
      removed names. */
  ghost predicate ListsIncoming(inp: Input, g: Node, name: string) {
    Name(g) == name && forall x :: x in Members(g) <==> Brings(GroupsIn(inp), name, x) && x !in RemovedBy(inp)
  }

  lemma MergedAt(inp: Input, s: Stages, name: string, y: string) returns (i: nat)
    requires Regulars(inp, Sources(inp)) && s == StagesOf(inp, NamespacedAll(Sources(inp)))
    requires name != "" && Brings(GroupsIn(inp), name, y)
    ensures i < |s.base| && Name(s.base[i]) == name && AllGroups(s.base)
    ensures forall x :: x in Members(s.base[i]) <==> Brings(GroupsIn(inp), name, x)
  {
    hide Name, Members, Brings, AddGroups, AddProxies, GroupPart, ProxyPart, StagesOf, Sources, IsGroup, NamespacedAll,
         Regulars, IsChain, MembersWithin, ItemMembersWithin, ItemsRegular, ItemNamed;
    var items := GroupsIn(inp);
    BuildStarts(inp, NamespacedAll(Sources(inp)));
    PartsRegular(inp, Sources(inp));
    EveryMember(items);
    MergedGroupsCover(items, EVERYTHING);
    BringsNamed(items, name, y);
    i := AddGroups(items).index[name];
    forall x { MergedMembersExactly(items, i, x); }
  }

  lemma ServedGroup(inp: Input, s: Stages, i: nat) returns (r: Node)
    requires Settled(inp) && Regulars(inp, Sources(inp)) && s == StagesOf(inp, NamespacedAll(Sources(inp)))
    requires i < |s.base| && AllGroups(s.base) && Members(s.base[i]) != []
    ensures r in Build(inp).groups && Name(r) == Name(s.base[i])
    ensures forall x :: x in Members(s.base[i]) && x !in RemovedBy(inp) ==> x in Members(r)
    ensures Name(r) != inp.selector ==>
              forall x :: x in Members(r) <==> x in Members(s.base[i]) && x !in RemovedBy(inp)
  {
    hide Name, Members, AddGroups, AddProxies, StagesOf, Sources, Merged, PruneGroups, RemovedNames, Regulars,
         StageLaws, IsChain, NamespacedAll, Contributors, AllGroups;
    var cs := NamespacedAll(Sources(inp));
    BuildStarts(inp, cs);
    BuildGroupsAreGroups(inp, Sources(inp), s);
    StagesGrow(s, Upstream(inp, cs), inp.selector, inp.tables, inp.params, i);
    r := PrunedMember(s.all, Merged(Contributors(inp, cs), inp.fallback).rules, inp.selector, inp.fallback, s.all[i]);
    forall x | x in Members(s.base[i]) ensures x in Members(s.all[i]) {
      var k :| 0 <= k < |Members(s.base[i])| && Members(s.base[i])[k] == x;
      assert Members(s.all[i])[k] == x;
    }
  }

  /** The whole build serves a group for every name under which groups with members came in, and it
      lists exactly their members, minus the names of removed groups; the selector also lists what the
      build adds to it. */
  lemma BuildListsMembers(inp: Input, name: string, y: string)
    requires Settled(inp) && Regulars(inp, Sources(inp)) && name != "" && Brings(GroupsIn(inp), name, y)
    ensures name != inp.selector ==> exists g :: g in Build(inp).groups && ListsIncoming(inp, g, name)
    ensures forall x :: Brings(GroupsIn(inp), name, x) && x !in RemovedBy(inp) ==> Lists(Build(inp).groups, name, x)
  {
    hide Name, Members, Brings, StagesOf, Sources, Build, Regulars, RemovedBy, AllGroups, GroupsIn;
    var s := StagesOf(inp, NamespacedAll(Sources(inp)));
    var i := MergedAt(inp, s, name, y);
    assert y in Members(s.base[i]);
    var r := ServedGroup(inp, s, i);
    if name != inp.selector { assert ListsIncoming(inp, r, name); }
  }

  // ----- the groups of the own-proxies file and of the sources

  lemma OwnBrings(inp: Input, j: nat, k: nat, r: string)
    requires j < |inp.ownGroups| && Regular(inp.ownGroups[j]) && Name(inp.ownGroups[j]) != ""
    requires k < |Members(inp.ownGroups[j])|
             && OwnMember(inp.ownProxies, inp.ownGroups, Members(inp.ownGroups[j])[k], r)
    ensures Brings(GroupsIn(inp), "_" + Name(inp.ownGroups[j]), r)
  {
    hide Name, Members, OwnMember, NamespacedAll, Sources, RewriteOwnGroups, Regular, GroupItems;
    OwnRewrittenLaw(inp.ownProxies, inp.ownGroups);
    var item := GroupsIn(inp)[j];
    assert item.node == OwnGroups(inp)[j];
    assert OwnMember(inp.ownProxies, inp.ownGroups, Members(inp.ownGroups[j])[k], Members(item.node)[k]);
    OneOwnMember(inp.ownProxies, inp.ownGroups, Members(inp.ownGroups[j])[k], Members(item.node)[k], r);
  }

  lemma OneOwnMember(ps: seq<Node>, gs: seq<Node>, m: string, a: string, b: string)
    requires OwnMember(ps, gs, m, a) && OwnMember(ps, gs, m, b)
    ensures a == b
  {
  }

  /** Member `k` of own group `j` is served in the group's place: under an underscore exactly when it is no
      built-in and the own file defines it, otherwise, be it an upstream proxy, a generated group or
      anything else, as it is; unless it names a removed group. */
  lemma OwnMemberServed(inp: Input, j: nat, k: nat, r: string)
    requires Settled(inp) && Regulars(inp, Sources(inp))
    requires j < |inp.ownGroups| && Name(inp.ownGroups[j]) != "" && k < |Members(inp.ownGroups[j])|
    requires OwnMember(inp.ownProxies, inp.ownGroups, Members(inp.ownGroups[j])[k], r)
    ensures Lists(Build(inp).groups, "_" + Name(inp.ownGroups[j]), r) || r in RemovedBy(inp)
    ensures var s := StagesOf(inp, NamespacedAll(Sources(inp))); Lists(s.base, "_" + Name(inp.ownGroups[j]), r)
  {
    hide Name, Members, OwnMember, Build, StagesOf, Sources, RemovedBy, Brings, Regular, Lists, GroupsIn;
    OwnBrings(inp, j, k, r);
    BuildListsMembers(inp, "_" + Name(inp.ownGroups[j]), r);
    MergedLists(inp, "_" + Name(inp.ownGroups[j]), r);
  }

  lemma MergedLists(inp: Input, name: string, r: string)
    requires Regulars(inp, Sources(inp)) && name != "" && Brings(GroupsIn(inp), name, r)
    ensures Lists(StagesOf(inp, NamespacedAll(Sources(inp))).base, name, r)
  {
    hide Name, Members, StagesOf, Sources, Brings, Regulars, GroupsIn;
    var s := StagesOf(inp, NamespacedAll(Sources(inp)));
    var i := MergedAt(inp, s, name, r);
    assert s.base[i] in s.base;
  }

  /** The reference as seen from outside source `c`. */
  ghost predicate SourceMember(c: Contribution, m: string, r: string) {
    r == if BuiltIn(m) then m else c.name + "_" + m
  }

  lemma SourceItem(c: Contribution, j: nat, k: nat, r: string)
    requires j < |c.groups| && Regular(c.groups[j]) && Name(c.groups[j]) != ""
    requires k < |Members(c.groups[j])| && SourceMember(c, Members(c.groups[j])[k], r)
    ensures var g := RewriteGroups(c.name, c.groups)[j]; Name(g) == c.name + "_" + Name(c.groups[j]) && r in Members(g)
  {
    hide Name, Members, BuiltIn, RewriteGroups, RewriteProxies, Regular;
    SourceRewrittenLaw(c.name, c.proxies, c.groups);
    assert Members(RewriteGroups(c.name, c.groups)[j])[k] == r;
  }

  lemma ItemBrings(items: seq<Item>, item: Item, r: string)
    requires item in items && r in Members(item.node)
    ensures Brings(items, Name(item.node), r)
  {
    hide Name, Members;
    var l :| 0 <= l < |items| && items[l] == item;
  }

  lemma SourceBrings(inp: Input, i: nat, j: nat, k: nat, r: string)
    requires i < |Sources(inp)| && j < |Sources(inp)[i].groups|
    requires var g := Sources(inp)[i].groups[j];
             Regular(g) && Name(g) != "" && k < |Members(g)| && SourceMember(Sources(inp)[i], Members(g)[k], r)
    ensures Brings(GroupsIn(inp), Sources(inp)[i].name + "_" + Name(Sources(inp)[i].groups[j]), r)
  {
    hide Name, Members, Sources, RewriteGroups, Regular, GroupItems, OwnGroups, Brings, SourceMember, Namespaced;
    var c, cs := Sources(inp)[i], NamespacedAll(Sources(inp));
    SourceItem(c, j, k, r);
    NamespacedGroups(c);
    var items := SourceItems(cs[i].name, cs[i].groups);
    GroupItemsLaw(cs, items[j]);
    ItemBrings(GroupsIn(inp), items[j], r);
  }

  lemma NamespacedGroups(c: Contribution)
    ensures Namespaced(c).name == c.name && Namespaced(c).groups == RewriteGroups(c.name, c.groups)
            && Namespaced(c).proxies == RewriteProxies(c.name, c.proxies)
  {
  }

  /** Member `k` of a source's group is served under the source's prefix, or as it is if it is a built-in;
      unless it names a removed group. */
  lemma SourceMemberServed(inp: Input, i: nat, j: nat, k: nat, r: string)
    requires Settled(inp) && Regulars(inp, Sources(inp)) && i < |Sources(inp)| && j < |Sources(inp)[i].groups|
    requires var g := Sources(inp)[i].groups[j];
             Name(g) != "" && k < |Members(g)| && SourceMember(Sources(inp)[i], Members(g)[k], r)
    ensures Lists(Build(inp).groups, Sources(inp)[i].name + "_" + Name(Sources(inp)[i].groups[j]), r)
            || r in RemovedBy(inp)
  {
    hide Name, Members, SourceMember, Build, StagesOf, Sources, RemovedBy, Brings, Regular, Lists, GroupsIn;
    assert SourceRegular(Sources(inp)[i]);
    SourceBrings(inp, i, j, k, r);
    BuildListsMembers(inp, Sources(inp)[i].name + "_" + Name(Sources(inp)[i].groups[j]), r);
  }

  // ----- the order of what is served

  function Flatten(lists: seq<seq<Node>>): (r: seq<Node>) { if lists == [] then [] else lists[0] + Flatten(lists[1..]) }

  /** The proxies of the own file and of every source in merge order, each list as its file has it. */
  ghost function ProxyLists(inp: Input): (r: seq<seq<Node>>) {
    [RewriteOwnProxies(inp.ownProxies)] +
    seq(|Sources(inp)|, i requires 0 <= i < |Sources(inp)| =>
      RewriteProxies(Sources(inp)[i].name, Sources(inp)[i].proxies))
  }

  ghost function GroupLists(inp: Input): (r: seq<seq<Node>>) {
    [OwnGroups(inp)] +
    seq(|Sources(inp)|, i requires 0 <= i < |Sources(inp)| =>
      RewriteGroups(Sources(inp)[i].name, Sources(inp)[i].groups))
  }

  function NodesOf(items: seq<Item>): (r: seq<Node>)
    ensures |r| == |items|
  {
    seq(|items|, i requires 0 <= i < |items| => items[i].node)
  }

  lemma NodesConcat(a: seq<Item>, b: seq<Item>)
    ensures NodesOf(a + b) == NodesOf(a) + NodesOf(b)
  {
  }

  lemma {:induction false} FlattenSnoc(lists: seq<seq<Node>>, last: seq<Node>)
    ensures Flatten(lists + [last]) == Flatten(lists) + last
  {
    var all := lists + [last];
    if lists == [] {
      assert all == [last] && all[1..] == [];
    } else {
      FlattenSnoc(lists[1..], last);
      assert all[1..] == lists[1..] + [last];
    }
  }

  function PartLists(cs: seq<Contribution>, part: Part): (r: seq<seq<Node>>)
    ensures |r| == |cs|
  {
    seq(|cs|, i requires 0 <= i < |cs| => BuildLaws.PartOf(cs[i], part))
  }

  lemma {:induction false} PartInOrder(cs: seq<Contribution>, part: Part)
    ensures NodesOf(PartItems(cs, part)) == Flatten(PartLists(cs, part))
  {
    hide ProxyItems, GroupItems, SourceItems, Flatten;
    if cs != [] {
      var init, c := cs[..|cs| - 1], cs[|cs| - 1];
      PartInOrder(init, part);
      ItemsStep(cs);
      NodesConcat(PartItems(init, part), SourceItems(c.name, BuildLaws.PartOf(c, part)));
      assert NodesOf(SourceItems(c.name, BuildLaws.PartOf(c, part))) == BuildLaws.PartOf(c, part) by {
        SourceNodesAre(c.name, BuildLaws.PartOf(c, part));
      }
      assert PartLists(cs, part) == PartLists(init, part) + [BuildLaws.PartOf(c, part)];
      FlattenSnoc(PartLists(init, part), BuildLaws.PartOf(c, part));
    } else {
      NoItems(part);
    }
  }

  lemma SourceNodesAre(source: string, ns: seq<Node>)
    ensures NodesOf(SourceItems(source, ns)) == ns && NodesOf(OwnItems(ns)) == ns
  {
  }

  lemma NoItems(part: Part)
    ensures PartItems([], part) == [] && PartLists([], part) == [] && Flatten([]) == [] && NodesOf([]) == []
  {
  }

  lemma {:induction false} NamedInOrder(items: seq<Item>) returns (at: seq<nat>)
    ensures Selects(NodesOf(items), at, NamedNodes(items))
    ensures forall i: nat :: i in at <==> i < |items| && Name(items[i].node) != ""
  {
    hide Selects, Name;
    if items == [] {
      at := [];
      NothingSelected(NodesOf(items));
    } else {
      var init, last := items[..|items| - 1], items[|items| - 1];
      assert NodesOf(items) == NodesOf(init) + [last.node];
      at := NamedInOrder(init);
      SelectsMore(NodesOf(init), at, NamedNodes(init), last.node);
      assert NamedNodes(items) == if Name(last.node) != "" then NamedNodes(init) + [last.node] else NamedNodes(init);
      assert forall i :: 0 <= i < |init| ==> items[i] == init[i];
      if Name(last.node) != "" { at := at + [|init|]; }
    }
  }

  lemma ListsAre(inp: Input)
    ensures NodesOf(ProxyPart(inp, NamespacedAll(Sources(inp)))) == Flatten(ProxyLists(inp))
    ensures NodesOf(GroupPart(inp, NamespacedAll(Sources(inp)))) == Flatten(GroupLists(inp))
  {
    hide Sources, Flatten, ProxyItems, GroupItems, RewriteProxies, RewriteGroups, RewriteOwnProxies, OwnGroups,
         Namespaced, OwnItems;
    var cs := NamespacedAll(Sources(inp));
    PartInOrder(cs, Proxies);
    PartInOrder(cs, Groups);
    forall i | 0 <= i < |cs| { NamespacedGroups(Sources(inp)[i]); }
    SourceNodesAre("", RewriteOwnProxies(inp.ownProxies));
    SourceNodesAre("", OwnGroups(inp));
    NodesConcat(OwnItems(OwnProxies(inp)), ProxyItems(cs));
    NodesConcat(OwnItems(OwnGroups(inp)), GroupItems(cs));
    assert ProxyLists(inp)[1..] == PartLists(cs, Proxies) && GroupLists(inp)[1..] == PartLists(cs, Groups);
    FlattenCons(ProxyLists(inp));
    FlattenCons(GroupLists(inp));
  }

  lemma FlattenCons(lists: seq<seq<Node>>)
    requires lists != []
    ensures Flatten(lists) == lists[0] + Flatten(lists[1..])
  {
  }

  /** `r` are the named nodes of the lists, one list after the other. */
  ghost predicate NamedOf(lists: seq<seq<Node>>, r: seq<Node>) {
    exists at: seq<nat> ::
      && Selects(Flatten(lists), at, r)
      && forall i: nat :: i in at <==> i < |Flatten(lists)| && Name(Flatten(lists)[i]) != ""
  }

  lemma NamedOfItems(items: seq<Item>, lists: seq<seq<Node>>)
    requires NodesOf(items) == Flatten(lists)
    ensures NamedOf(lists, NamedNodes(items))
  {
    hide Selects, Name, Flatten, NamedNodes;
    var at := NamedInOrder(items);
    assert forall i :: 0 <= i < |items| ==> NodesOf(items)[i] == items[i].node;
  }

  /** With names distinct inside each source and the own file, the build serves, in this order: the own
      proxies, those of every source in merge order, and the copies; and it starts from the groups in the
      same order. */
  lemma BuildInOrder(inp: Input)
    requires ValidTable(inp.rows) && NamedApart(inp, Sources(inp))
    ensures var s := StagesOf(inp, NamespacedAll(Sources(inp)));
            && NamedOf(ProxyLists(inp), s.merged) && Build(inp).proxies == s.merged + s.copies
            && NamedOf(GroupLists(inp), s.base)
  {
    hide Sources, NamedOf, NamedApart, DistinctNames, AddProxies, AddGroups, ProxyPart, GroupPart, ProxyLists,
         GroupLists, NamedNodes, NodesOf, Flatten, NamespacedAll, WithSelector, Merged, PruneGroups;
    var cs := NamespacedAll(Sources(inp));
    ListsAre(inp);
    SourcesNamed(inp);
    ProxyPartDistinct(inp, Sources(inp));
    GroupPartDistinct(inp, Sources(inp));
    DistinctProxiesMergeVerbatim(ProxyPart(inp, cs));
    DistinctGroupsMergeVerbatim(GroupPart(inp, cs));
    NamedOfItems(ProxyPart(inp, cs), ProxyLists(inp));
    NamedOfItems(GroupPart(inp, cs), GroupLists(inp));
  }

  // ----- the reports

  ghost function ProxiesIn(inp: Input): (r: seq<Item>) { ProxyPart(inp, NamespacedAll(Sources(inp))) }

  lemma ReportsAre(inp: Input)
    ensures Build(inp).collisions == AddProxies(ProxiesIn(inp)).collisions
            && Build(inp).conflicts == AddGroups(GroupsIn(inp)).conflicts
  {
    hide Sources, AddProxies, AddGroups, ProxyPart, GroupPart, NamespacedAll, WithSelector, Merged, PruneGroups,
         WithRegions, WithContinents, FanoutProxies, MergedProviders, Contributors, Upstream;
  }

  /** What the build reports: every collision is one of its proxies, each proxy that collides is reported, and
      the conflicts are exactly those of its groups. */
  lemma BuildReports(inp: Input, c: Collision, k: nat, d: Conflict)
    requires Regulars(inp, Sources(inp))
    ensures c in Build(inp).collisions ==> exists i: nat :: CollidesAt(ProxiesIn(inp), i, c)
    ensures var items := ProxiesIn(inp);
            k < |items| && !items[k].own && Name(items[k].node) != "" && Taken(items[..k], Name(items[k].node)) ==>
              exists e :: e in Build(inp).collisions && CollidesAt(items, k, e)
    ensures d in Build(inp).conflicts <==> Conflicts(GroupsIn(inp), d)
  {
    hide Sources, Build, AddProxies, AddGroups, CollidesAt, Taken, Conflicts, Regulars, Name, ProxiesIn;
    var items := ProxiesIn(inp);
    ReportsAre(inp);
    PartsRegular(inp, Sources(inp));
    if c in Build(inp).collisions { CollisionsRecorded(items, c); }
    if k < |items| && !items[k].own && Name(items[k].node) != "" && Taken(items[..k], Name(items[k].node)) {
      EveryCollisionRecorded(items, k);
    }
    ConflictReportExactly(GroupsIn(inp), d);
  }
}
