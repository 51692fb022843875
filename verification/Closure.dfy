/** Reference closure of the whole build: whatever a served group or rule names is served. */
module Closure {
  import opened Text
  import opened Sorting
  import opened Yaml
  import opened RuleLine
  import opened Subscriptions
  import opened Namespace
  import opened MergeNodes
  import opened RuleMerge
  import opened RuleProviders
  import opened RegionTable
  import opened Regions
  import opened Fanout
  import opened Prune
  import opened Pipeline

  // ----- every defined name is emitted

  lemma ItemIn(items: seq<Item>, item: Item, name: string)
    requires item in items && Name(item.node) == name && name != ""
    ensures ItemNamed(items, name)
  {
    var i :| 0 <= i < |items| && items[i] == item;
  }

  lemma SourceProxyEmitted(inp: Input, raw: seq<Contribution>, i: nat, n: string)
    requires Regulars(inp, raw) && i < |raw| && n != "" && NodeNamed(raw[i].proxies, n)
    ensures NodeNamed(AddProxies(ProxyPart(inp, NamespacedAll(raw))).merged, Prefixed(raw[i].name, n))
  {
    var cs := NamespacedAll(raw);
    var j :| 0 <= j < |raw[i].proxies| && Name(raw[i].proxies[j]) == n;
    RenamedAt(raw[i].proxies, Prefixer(raw[i].name), j);
    var items := SourceItems(cs[i].name, cs[i].proxies);
    assert items[j] in items;
    ProxyItemsLaw(cs, items[j]);
    ItemIn(ProxyPart(inp, cs), items[j], Prefixed(raw[i].name, n));
    PartsRegular(inp, raw);
    MergedProxiesCover(ProxyPart(inp, cs));
  }

  lemma OwnProxyEmitted(inp: Input, raw: seq<Contribution>, n: string)
    requires Regulars(inp, raw) && n != "" && NodeNamed(inp.ownProxies, n)
    ensures NodeNamed(AddProxies(ProxyPart(inp, NamespacedAll(raw))).merged, OwnName(n))
  {
    var cs := NamespacedAll(raw);
    var j :| 0 <= j < |inp.ownProxies| && Name(inp.ownProxies[j]) == n;
    RenamedAt(inp.ownProxies, OwnPrefixer(), j);
    var items := OwnItems(OwnProxies(inp));
    assert items[j] in items;
    ItemIn(ProxyPart(inp, cs), items[j], OwnName(n));
    PartsRegular(inp, raw);
    MergedProxiesCover(ProxyPart(inp, cs));
  }

  lemma GroupItemEmitted(inp: Input, raw: seq<Contribution>, item: Item)
    requires Regulars(inp, raw) && item in GroupPart(inp, NamespacedAll(raw)) && Name(item.node) != ""
    ensures NodeNamed(AddGroups(GroupPart(inp, NamespacedAll(raw))).merged, Name(item.node))
  {
    var items := GroupPart(inp, NamespacedAll(raw));
    ItemIn(items, item, Name(item.node));
    PartsRegular(inp, raw);
    MergedGroupsCover(items, EVERYTHING);
    var st := AddGroups(items);
    assert Name(st.merged[st.index[Name(item.node)]]) == Name(item.node);
  }

  lemma SourceGroupEmitted(inp: Input, raw: seq<Contribution>, i: nat, n: string)
    requires Regulars(inp, raw) && i < |raw| && n != "" && NodeNamed(raw[i].groups, n)
    ensures NodeNamed(AddGroups(GroupPart(inp, NamespacedAll(raw))).merged, Prefixed(raw[i].name, n))
  {
    var cs := NamespacedAll(raw);
    var j :| 0 <= j < |raw[i].groups| && Name(raw[i].groups[j]) == n;
    MappedAt(raw[i].groups, Prefixer(raw[i].name), RefPrefixer(raw[i].name), j);
    var items := SourceItems(cs[i].name, cs[i].groups);
    assert items[j] in items;
    GroupItemsLaw(cs, items[j]);
    GroupItemEmitted(inp, raw, items[j]);
  }

  lemma OwnGroupEmitted(inp: Input, raw: seq<Contribution>, n: string)
    requires Regulars(inp, raw) && n != "" && NodeNamed(inp.ownGroups, n)
    ensures NodeNamed(AddGroups(GroupPart(inp, NamespacedAll(raw))).merged, OwnName(n))
  {
    var j :| 0 <= j < |inp.ownGroups| && Name(inp.ownGroups[j]) == n;
    MappedAt(inp.ownGroups, OwnPrefixer(), OwnRefPrefixer(OwnNames(inp.ownProxies, inp.ownGroups)), j);
    var items := OwnItems(OwnGroups(inp));
    assert items[j] in items;
    GroupItemEmitted(inp, raw, items[j]);
  }

  // ----- the stages

  /** What the program guarantees about its own settings. */
  ghost predicate Settled(inp: Input) { inp.selector != "" && ValidTables(inp.tables) }

  /** The selector is there, and the regions follow it in sibling pairs. */
  ghost predicate RegionLaws(base: seq<Node>, selected: seq<Node>, regions: seq<Node>, keys: seq<string>,
                             lists: map<string, seq<string>>, selector: string)
  {
    && AllGroups(selected) && |base| <= |selected| && Names(selected)[..|base|] == Names(base)
    && FindNamed(selected, selector) < |selected|
    && Extended(selected, regions, selector)
    && SiblingList(regions[|selected|..], keys, lists, REGION, LB_REGION)
  }

  ghost predicate ContinentLaws(regions: seq<Node>, all: seq<Node>, keys: seq<string>,
                                lists: map<string, seq<string>>, selector: string) {
    && Extended(regions, all, selector)
    && SiblingList(all[|regions|..], keys, lists, CONTINENT, LB_CONTINENT)
  }

  /** Every stage keeps the groups of the one before, and the generated ones come in sibling pairs. */
  ghost predicate StageLaws(s: Stages, selector: string) {
    && RegionLaws(s.base, s.selected, s.regions, s.regionKeys, s.regionLists, selector)
    && ContinentLaws(s.regions, s.all, s.continentKeys, s.continentLists, selector)
  }

  /** What the region stage needs: groups, names and generated names inside `u`. */
  ghost predicate RegionGround(base: seq<Node>, names: seq<string>, selector: string, t: Tables, u: iset<string>) {
    && selector != "" && ValidTables(t) && AllGroups(base) && MembersWithin(base, u) && AllIn(names, u)
    && AllIn(PairNames(RegionKeys(names, ByCountry(t)), REGION, LB_REGION), u)
  }

  /** The stages hold, with every group's members in `u`. */
  lemma ChainHolds(s: Stages, names: seq<string>, selector: string, t: Tables, p: Params, u: iset<string>)
    requires IsChain(s, names, selector, t, p) && RegionGround(s.base, names, selector, t, u)
    requires AllIn(PairNames(s.continentKeys, CONTINENT, LB_CONTINENT), u)
    ensures StageLaws(s, selector) && MembersWithin(s.all, u)
  {
    hide WithSelector, WithRegions, WithContinents, RegionKeys, RegionMembers, PairNames, SiblingList, ByCountry,
         AllGroups, MembersWithin, Names, ContinentMembers;
    WithSelectorLaw(s.base, names, selector, u);
    assert AllGroups(s.selected) && MembersWithin(s.selected, u);
    WithRegionsLaw(s.selected, names, selector, t, p, u);
    assert RegionLaws(s.base, s.selected, s.regions, s.regionKeys, s.regionLists, selector);
    WithContinentsLaw(s.regions, selector, t, p, u);
    assert ContinentLaws(s.regions, s.all, s.continentKeys, s.continentLists, selector);
  }

  /** `x` is the name of a generated group. */
  ghost predicate Generated(s: Stages, x: string) {
    || x in PairNames(s.regionKeys, REGION, LB_REGION)
    || x in PairNames(s.continentKeys, CONTINENT, LB_CONTINENT)
  }

  lemma NamedInExtended(gs: seq<Node>, r: seq<Node>, selector: string, x: string)
    requires Extended(gs, r, selector) && NodeNamed(gs, x)
    ensures NodeNamed(r, x)
  {
    var i :| 0 <= i < |gs| && Name(gs[i]) == x;
    assert Name(r[i]) == x;
  }

  lemma NamedInTail(r: seq<Node>, n: nat, keys: seq<string>, members: map<string, seq<string>>, prefix: string,
                    lbPrefix: string, x: string)
    requires n <= |r| && SiblingList(r[n..], keys, members, prefix, lbPrefix) && x in PairNames(keys, prefix, lbPrefix)
    ensures NodeNamed(r, x)
  {
    var i :| 0 <= i < |PairNames(keys, prefix, lbPrefix)| && PairNames(keys, prefix, lbPrefix)[i] == x;
    PairNamesAt(keys, prefix, lbPrefix, i);
    SiblingAt(r[n..], keys, members, prefix, lbPrefix, i);
    assert Name(r[n + i]) == x;
  }

  /** A merged group, the selector or a generated group is among the groups before pruning. */
  lemma GroupNamesReachEnd(s: Stages, selector: string, x: string)
    requires StageLaws(s, selector)
    requires NodeNamed(s.base, x) || x == selector || Generated(s, x)
    ensures NodeNamed(s.all, x)
  {
    if NodeNamed(s.base, x) {
      var i :| 0 <= i < |s.base| && Name(s.base[i]) == x;
      assert Names(s.selected)[..|s.base|][i] == Names(s.base)[i];
      assert Name(s.selected[i]) == x;
    }
    if x == selector { assert Name(s.selected[FindNamed(s.selected, x)]) == x; }
    if NodeNamed(s.selected, x) { NamedInExtended(s.selected, s.regions, selector, x); }
    if x in PairNames(s.regionKeys, REGION, LB_REGION) {
      NamedInTail(s.regions, |s.selected|, s.regionKeys, s.regionLists, REGION, LB_REGION, x);
    }
    if NodeNamed(s.regions, x) {
      NamedInExtended(s.regions, s.all, selector, x);
    } else {
      NamedInTail(s.all, |s.regions|, s.continentKeys, s.continentLists, CONTINENT, LB_CONTINENT, x);
    }
  }

  // ----- what the inputs must satisfy

  ghost predicate OwnDefines(inp: Input, n: string) {
    n != "" && (NodeNamed(inp.ownProxies, n) || NodeNamed(inp.ownGroups, n))
  }

  /** A name an operator file may refer to: a built-in, the selector, `source_name`, `_own`, or a
      generated group. */
  ghost predicate Known(inp: Input, raw: seq<Contribution>, s: Stages, x: string) {
    || x in BUILTINS
    || x == inp.selector
    || (exists i, n :: 0 <= i < |raw| && Defines(raw[i], n) && x == Prefixed(raw[i].name, n))
    || (exists n :: OwnDefines(inp, n) && x == OwnName(n))
    || Generated(s, x)
  }

  /** A source refers only to built-ins and to what it defines, in well-formed rules. */
  ghost predicate SourceClosed(c: Contribution) {
    && (forall i, k :: 0 <= i < |c.groups| && 0 <= k < |Members(c.groups[i])| ==>
          Members(c.groups[i])[k] in BUILTINS || Defines(c, Members(c.groups[i])[k]))
    && (forall k :: 0 <= k < |c.rules| && Target(c.rules[k]).Some? ==>
          WellFormed(c.rules[k]) && (Target(c.rules[k]).value in BUILTINS || Defines(c, Target(c.rules[k]).value)))
  }

  ghost predicate OperatorClosed(inp: Input, raw: seq<Contribution>, s: Stages) {
    && (forall i, k :: 0 <= i < |inp.ownGroups| && 0 <= k < |Members(inp.ownGroups[i])| ==>
          OwnDefines(inp, Members(inp.ownGroups[i])[k]) || Known(inp, raw, s, Members(inp.ownGroups[i])[k]))
    && (forall i, k :: 0 <= i < |inp.customs| && 0 <= k < |inp.customs[i].rules| &&
                       Target(inp.customs[i].rules[k]).Some? ==>
          Known(inp, raw, s, Target(inp.customs[i].rules[k]).value))
    && TargetName(inp.fallback) && Known(inp, raw, s, inp.fallback)
  }

  ghost predicate Closed(inp: Input, raw: seq<Contribution>, s: Stages) {
    && Regulars(inp, raw) && OperatorClosed(inp, raw, s)
    && forall i :: 0 <= i < |raw| ==> SourceClosed(raw[i])
  }

  // ----- the universe of names just before pruning

  ghost function Universe(s: Stages): (u: iset<string>) {
    iset x: string | Resolves(x, s.merged + s.copies, s.all)
  }

  /** Everything the inputs define was emitted. */
  ghost predicate Emits(inp: Input, raw: seq<Contribution>, s: Stages) {
    && (forall i, n :: 0 <= i < |raw| && n != "" && NodeNamed(raw[i].proxies, n) ==>
          NodeNamed(s.merged, Prefixed(raw[i].name, n)))
    && (forall i, n :: 0 <= i < |raw| && n != "" && NodeNamed(raw[i].groups, n) ==>
          NodeNamed(s.base, Prefixed(raw[i].name, n)))
    && (forall n :: n != "" && NodeNamed(inp.ownProxies, n) ==> NodeNamed(s.merged, OwnName(n)))
    && (forall n :: n != "" && NodeNamed(inp.ownGroups, n) ==> NodeNamed(s.base, OwnName(n)))
  }

  lemma MergedResolves(s: Stages, x: string)
    requires NodeNamed(s.merged, x)
    ensures x in Universe(s)
  {
    var i :| 0 <= i < |s.merged| && Name(s.merged[i]) == x;
    assert Name((s.merged + s.copies)[i]) == x;
  }

  lemma KnownResolves(inp: Input, raw: seq<Contribution>, s: Stages, x: string)
    requires StageLaws(s, inp.selector) && Emits(inp, raw, s) && Known(inp, raw, s, x)
    ensures x in Universe(s)
  {
    if x !in BUILTINS {
      if NodeNamed(s.merged, x) {
        MergedResolves(s, x);
      } else {
        GroupNamesReachEnd(s, inp.selector, x);
      }
    }
  }

  /** What a source or the operator may refer to is known under the name the passes give it. */
  lemma RefsAreKnown(inp: Input, raw: seq<Contribution>, s: Stages)
    ensures forall i, m :: 0 <= i < |raw| && (m in BUILTINS || Defines(raw[i], m)) ==>
              Known(inp, raw, s, PrefixedRef(raw[i].name, m))
    ensures forall m :: OwnDefines(inp, m) || Known(inp, raw, s, m) ==>
              Known(inp, raw, s, OwnRef(OwnNames(inp.ownProxies, inp.ownGroups), m))
  {
    hide Generated;
    forall m | OwnDefines(inp, m) || Known(inp, raw, s, m)
      ensures Known(inp, raw, s, OwnRef(OwnNames(inp.ownProxies, inp.ownGroups), m))
    {
      NameSetHas(inp.ownProxies, m);
      NameSetHas(inp.ownGroups, m);
    }
  }

  lemma OwnMembersResolve(inp: Input, raw: seq<Contribution>, s: Stages, j: nat, l: nat)
    requires StageLaws(s, inp.selector) && Emits(inp, raw, s) && Closed(inp, raw, s)
    requires j < |inp.ownGroups| && l < |Members(OwnGroups(inp)[j])|
    ensures Members(OwnGroups(inp)[j])[l] in Universe(s)
  {
    hide StageLaws, Emits, Known, OwnDefines, OwnRef, Universe, SourceClosed, Members, Name;
    MappedAt(inp.ownGroups, OwnPrefixer(), OwnRefPrefixer(OwnNames(inp.ownProxies, inp.ownGroups)), j);
    RefsAreKnown(inp, raw, s);
    KnownResolves(inp, raw, s, OwnRef(OwnNames(inp.ownProxies, inp.ownGroups), Members(inp.ownGroups[j])[l]));
  }

  lemma SourceMembersResolve(inp: Input, raw: seq<Contribution>, s: Stages, i: nat, j: nat, l: nat)
    requires StageLaws(s, inp.selector) && Emits(inp, raw, s) && Closed(inp, raw, s)
    requires i < |raw| && j < |raw[i].groups| && l < |Members(RewriteGroups(raw[i].name, raw[i].groups)[j])|
    ensures Members(RewriteGroups(raw[i].name, raw[i].groups)[j])[l] in Universe(s)
  {
    hide StageLaws, Emits, Known, Defines, PrefixedRef, Universe, Members, Name, OperatorClosed;
    assert SourceClosed(raw[i]);
    MappedAt(raw[i].groups, Prefixer(raw[i].name), RefPrefixer(raw[i].name), j);
    RefsAreKnown(inp, raw, s);
    KnownResolves(inp, raw, s, PrefixedRef(raw[i].name, Members(raw[i].groups[j])[l]));
  }

  lemma ItemMembersResolve(inp: Input, raw: seq<Contribution>, s: Stages)
    requires StageLaws(s, inp.selector) && Emits(inp, raw, s) && Closed(inp, raw, s)
    ensures ItemMembersWithin(GroupPart(inp, NamespacedAll(raw)), Universe(s))
  {
    hide StageLaws, Emits, Closed, Universe, Members, MappedGroups, GroupPart;
    var items, u := GroupPart(inp, NamespacedAll(raw)), Universe(s);
    forall k, l | 0 <= k < |items| && 0 <= l < |Members(items[k].node)| ensures Members(items[k].node)[l] in u {
      GroupPartShape(inp, raw, k);
      if j :| 0 <= j < |inp.ownGroups| && items[k].node == OwnGroups(inp)[j] {
        OwnMembersResolve(inp, raw, s, j, l);
      } else {
        var i, j :| 0 <= i < |raw| && 0 <= j < |raw[i].groups|
            && items[k].node == RewriteGroups(raw[i].name, raw[i].groups)[j];
        SourceMembersResolve(inp, raw, s, i, j, l);
      }
    }
  }

  // ----- members

  lemma {:induction false} UpstreamNamesLaw(ps: seq<Node>)
    ensures forall x :: x in UpstreamNames(ps) ==> NodeNamed(ps, x) && x != "" && x[0] != '_'
  {
    if ps != [] {
      var init := ps[..|ps| - 1];
      UpstreamNamesLaw(init);
      forall x | x in UpstreamNames(ps) ensures NodeNamed(ps, x) && x != "" && x[0] != '_' {
        if x in UpstreamNames(init) {
          var i :| 0 <= i < |init| && Name(init[i]) == x;
          assert Name(ps[i]) == x;
        } else {
          assert Name(ps[|ps| - 1]) == x;
        }
      }
    }
  }

  lemma AllInFrom(s: seq<string>, u: iset<string>)
    requires forall x :: x in s ==> x in u
    ensures AllIn(s, u)
  {
    forall k | 0 <= k < |s| ensures s[k] in u { assert s[k] in s; }
  }

  lemma GroundInUniverse(s: Stages, selector: string)
    requires StageLaws(s, selector)
    ensures AllIn(UpstreamNames(s.merged), Universe(s))
    ensures AllIn(PairNames(s.regionKeys, REGION, LB_REGION), Universe(s))
    ensures AllIn(PairNames(s.continentKeys, CONTINENT, LB_CONTINENT), Universe(s))
  {
    var u := Universe(s);
    UpstreamNamesLaw(s.merged);
    forall x | x in UpstreamNames(s.merged) ensures x in u { MergedResolves(s, x); }
    AllInFrom(UpstreamNames(s.merged), u);
    forall x | Generated(s, x) ensures x in u { GroupNamesReachEnd(s, selector, x); }
    AllInFrom(PairNames(s.regionKeys, REGION, LB_REGION), u);
    AllInFrom(PairNames(s.continentKeys, CONTINENT, LB_CONTINENT), u);
  }

  // ----- rules

  ghost predicate TargetsWithin(rules: seq<string>, u: iset<string>) {
    forall k :: 0 <= k < |rules| && Target(rules[k]).Some? ==> Target(rules[k]).value in u
  }

  ghost predicate ContributorsWithin(cs: seq<Contributor>, u: iset<string>) {
    forall i :: 0 <= i < |cs| ==> TargetsWithin(cs[i].rules, u)
  }

  lemma NamespacedRuleResolves(c: Contribution, rule: string, u: iset<string>)
    requires LowerName(c.name) && SourceClosed(c) && rule in c.rules
    requires forall m :: m in BUILTINS || Defines(c, m) ==> PrefixedRef(c.name, m) in u
    ensures Target(NamespacedRule(rule, c.name)).Some? ==> Target(NamespacedRule(rule, c.name)).value in u
  {
    LowerNameHasNoUnderscore(c.name, "");
    NamespacedFieldsLaw(rule, c.name);
    var k :| 0 <= k < |c.rules| && c.rules[k] == rule;
    if Target(rule).Some? {
      NamespacedTarget(rule, c.name);
    }
  }

  lemma NamespacedRulesResolve(c: Contribution, u: iset<string>)
    requires LowerName(c.name) && SourceClosed(c)
    requires forall m :: m in BUILTINS || Defines(c, m) ==> PrefixedRef(c.name, m) in u
    ensures TargetsWithin(Namespaced(c).rules, u)
  {
    var ns := Namespaced(c);
    var all := RewriteRules(c.name, c.rules);
    BackedRulesLaw(all, ProviderKeys(ns.providers));
    forall k | 0 <= k < |ns.rules| && Target(ns.rules[k]).Some? ensures Target(ns.rules[k]).value in u {
      assert ns.rules[k] in ns.rules;
      var j :| 0 <= j < |all| && all[j] == ns.rules[k];
      NamespacedRuleResolves(c, c.rules[j], u);
    }
  }

  lemma {:induction false} UpstreamPartsWithin(cs: seq<Contribution>, u: iset<string>)
    requires forall i :: 0 <= i < |cs| ==> TargetsWithin(cs[i].rules, u)
    ensures ContributorsWithin(UpstreamParts(cs), u)
  {
    if cs != [] { UpstreamPartsWithin(cs[..|cs| - 1], u); }
  }

  lemma {:induction false} CustomPartsWithin(customs: seq<Contributor>, u: iset<string>)
    requires ContributorsWithin(customs, u)
    ensures ContributorsWithin(CustomParts(customs), u)
  {
    if customs != [] { CustomPartsWithin(customs[..|customs| - 1], u); }
  }

  lemma MergedWithin(cs: seq<Contributor>, fallback: string, u: iset<string>)
    requires ContributorsWithin(cs, u) && TargetName(fallback) && fallback in u
    ensures TargetsWithin(Merged(cs, fallback).rules, u)
  {
    var sorted, rules := StableSort(cs, Earlier), Merged(cs, fallback).rules;
    EarlierIsStrictWeak();
    StableSortIsStable(cs, Earlier);
    FallbackRule(fallback);
    forall k | 0 <= k < |rules| && Target(rules[k]).Some? ensures Target(rules[k]).value in u {
      if k < |rules| - 1 {
        EmitProvenance(sorted, k);
        var i, j :| 0 <= i < |sorted| && 0 <= j < |sorted[i].rules| && EmitAll(sorted).rules[k] == sorted[i].rules[j];
        assert sorted[i] in cs;
        var l :| 0 <= l < |cs| && cs[l] == sorted[i];
        assert TargetsWithin(cs[l].rules, u);
      }
    }
  }

  lemma RulesResolve(inp: Input, raw: seq<Contribution>, s: Stages)
    requires StageLaws(s, inp.selector) && Emits(inp, raw, s) && Closed(inp, raw, s)
    ensures TargetsWithin(Merged(Contributors(inp, NamespacedAll(raw)), inp.fallback).rules, Universe(s))
    ensures inp.fallback in Universe(s)
  {
    hide StageLaws, Emits, Known, Defines, PrefixedRef, Universe, Merged, TargetName, Target;
    var cs, u := NamespacedAll(raw), Universe(s);
    RefsAreKnown(inp, raw, s);
    forall i | 0 <= i < |cs| ensures TargetsWithin(cs[i].rules, u) {
      forall m | m in BUILTINS || Defines(raw[i], m) ensures PrefixedRef(raw[i].name, m) in u {
        KnownResolves(inp, raw, s, PrefixedRef(raw[i].name, m));
      }
      assert SourceRegular(raw[i]);
      NamespacedRulesResolve(raw[i], u);
    }
    UpstreamPartsWithin(cs, u);
    forall i | 0 <= i < |inp.customs| ensures TargetsWithin(inp.customs[i].rules, u) {
      forall k | 0 <= k < |inp.customs[i].rules| && Target(inp.customs[i].rules[k]).Some?
        ensures Target(inp.customs[i].rules[k]).value in u
      {
        KnownResolves(inp, raw, s, Target(inp.customs[i].rules[k]).value);
      }
    }
    CustomPartsWithin(inp.customs, u);
    KnownResolves(inp, raw, s, inp.fallback);
    MergedWithin(Contributors(inp, cs), inp.fallback, u);
  }

  // ----- the theorem

  /** Every name a served group or rule refers to is a built-in, a served proxy or a served group. */
  ghost predicate ReferencesResolve(proxies: seq<Node>, groups: seq<Node>, rules: seq<string>) {
    && (forall i, k :: 0 <= i < |groups| && 0 <= k < |Members(groups[i])| ==>
          Resolves(Members(groups[i])[k], proxies, groups))
    && (forall k :: 0 <= k < |rules| && Target(rules[k]).Some? ==> Resolves(Target(rules[k]).value, proxies, groups))
  }

  lemma PruneResolves(gs: seq<Node>, rules: seq<string>, selector: string, fallback: string, proxies: seq<Node>)
    requires AllGroups(gs) && TargetName(fallback) && Resolves(fallback, proxies, gs)
    requires forall i, j :: 0 <= i < |gs| && 0 <= j < |Members(gs[i])| ==> Resolves(Members(gs[i])[j], proxies, gs)
    requires forall k :: 0 <= k < |rules| && Target(rules[k]).Some? ==> Resolves(Target(rules[k]).value, proxies, gs)
    ensures var p := PruneGroups(gs, rules, selector, fallback); ReferencesResolve(proxies, p.groups, p.rules)
  {
    var p := PruneGroups(gs, rules, selector, fallback);
    forall i, k | 0 <= i < |p.groups| && 0 <= k < |Members(p.groups[i])|
      ensures Resolves(Members(p.groups[i])[k], proxies, p.groups)
    {
      PruneClosesMembers(gs, rules, selector, fallback, proxies, i, Members(p.groups[i])[k]);
    }
    PruneUniform(gs, rules, selector, fallback);
    forall k | 0 <= k < |p.rules| && Target(p.rules[k]).Some?
      ensures Resolves(Target(p.rules[k]).value, proxies, p.groups)
    {
      PruneRuleLaw(rules[k], ToSet(RemovedNames(gs, gs, selector, fallback)), fallback);
      PruneClosesTargets(gs, rules, selector, fallback, proxies, k);
    }
  }

  /** `s` starts from the merged proxies and groups of the inputs. */
  ghost predicate StartsFrom(s: Stages, inp: Input, raw: seq<Contribution>) {
    && s.base == AddGroups(GroupPart(inp, NamespacedAll(raw))).merged
    && s.merged == AddProxies(ProxyPart(inp, NamespacedAll(raw))).merged
  }

  lemma BaseHolds(inp: Input, raw: seq<Contribution>, s: Stages)
    requires Regulars(inp, raw) && StartsFrom(s, inp, raw)
    ensures Emits(inp, raw, s) && AllGroups(s.base)
  {
    hide AddGroups, AddProxies, GroupPart, ProxyPart, NodeNamed, NamespacedAll, ItemMembersWithin, IsGroup;
    PartsRegular(inp, raw);
    EveryMember(GroupPart(inp, NamespacedAll(raw)));
    MergedGroupsCover(GroupPart(inp, NamespacedAll(raw)), EVERYTHING);
    forall i, n | 0 <= i < |raw| && n != "" && NodeNamed(raw[i].proxies, n)
      ensures NodeNamed(s.merged, Prefixed(raw[i].name, n))
    {
      SourceProxyEmitted(inp, raw, i, n);
    }
    forall n | n != "" && NodeNamed(inp.ownProxies, n) ensures NodeNamed(s.merged, OwnName(n)) {
      OwnProxyEmitted(inp, raw, n);
    }
    forall i, n | 0 <= i < |raw| && n != "" && NodeNamed(raw[i].groups, n)
      ensures NodeNamed(s.base, Prefixed(raw[i].name, n))
    {
      SourceGroupEmitted(inp, raw, i, n);
    }
    forall n | n != "" && NodeNamed(inp.ownGroups, n) ensures NodeNamed(s.base, OwnName(n)) {
      OwnGroupEmitted(inp, raw, n);
    }
  }

  lemma EveryMember(items: seq<Item>)
    ensures ItemMembersWithin(items, EVERYTHING)
  {
  }

  lemma BaseWithin(inp: Input, raw: seq<Contribution>, s: Stages)
    requires StageLaws(s, inp.selector) && Emits(inp, raw, s) && Closed(inp, raw, s) && StartsFrom(s, inp, raw)
    ensures MembersWithin(s.base, Universe(s))
  {
    ItemMembersResolve(inp, raw, s);
    PartsRegular(inp, raw);
    MergedGroupsCover(GroupPart(inp, NamespacedAll(raw)), Universe(s));
  }

  lemma BuildStarts(inp: Input, cs: seq<Contribution>)
    ensures var s := StagesOf(inp, cs);
            && IsChain(s, Upstream(inp, cs), inp.selector, inp.tables, inp.params)
            && s.base == AddGroups(GroupPart(inp, cs)).merged && s.merged == AddProxies(ProxyPart(inp, cs)).merged
  {
  }

  lemma AssembleResolves(inp: Input, raw: seq<Contribution>, s: Stages)
    requires s == StagesOf(inp, NamespacedAll(raw)) && Settled(inp) && Closed(inp, raw, s)
    ensures var p := PruneStage(inp, NamespacedAll(raw), s); ReferencesResolve(s.merged + s.copies, p.groups, p.rules)
  {
    hide StagesOf, Merged, AddProxies, AddGroups, ReferencesResolve, PruneGroups, IsChain, ProxyPart, GroupPart,
         SourceClosed, Known, TargetName, Contributors, StageLaws, Emits, MembersWithin, AllGroups, UpstreamNames,
           NamespacedAll;
    var cs := NamespacedAll(raw);
    BuildStarts(inp, cs);
    BaseHolds(inp, raw, s);
    StagesHold(inp, s, Upstream(inp, cs));
    BaseWithin(inp, raw, s);
    GroundInUniverse(s, inp.selector);
    ChainHolds(s, Upstream(inp, cs), inp.selector, inp.tables, inp.params, Universe(s));
    RulesResolve(inp, raw, s);
    OutputResolves(s, Merged(Contributors(inp, cs), inp.fallback).rules, inp.selector, inp.fallback);
  }

  lemma OutputResolves(s: Stages, rules: seq<string>, selector: string, fallback: string)
    requires StageLaws(s, selector) && MembersWithin(s.all, Universe(s)) && TargetsWithin(rules, Universe(s))
    requires TargetName(fallback) && fallback in Universe(s)
    ensures var p := PruneGroups(s.all, rules, selector, fallback);
            ReferencesResolve(s.merged + s.copies, p.groups, p.rules)
  {
    hide PruneGroups, ReferencesResolve, Resolves, TargetName;
    PruneResolves(s.all, rules, selector, fallback, s.merged + s.copies);
  }

  lemma StagesHold(inp: Input, s: Stages, names: seq<string>)
    requires IsChain(s, names, inp.selector, inp.tables, inp.params) && Settled(inp) && AllGroups(s.base)
    ensures StageLaws(s, inp.selector)
  {
    hide IsChain, StageLaws, PairNames, RegionKeys, AllGroups, ByCountry;
    ChainHolds(s, names, inp.selector, inp.tables, inp.params, EVERYTHING);
  }

  /** Reference closure: if every source is closed in itself and the operator's files refer only
      to known names, then every member and every rule target of the served configuration is a
      built-in, a served proxy or a served group. */
  lemma BuildClosesReferences(inp: Input)
    requires Settled(inp) && Closed(inp, Sources(inp), StagesOf(inp, NamespacedAll(Sources(inp))))
    ensures var out := Build(inp); ReferencesResolve(out.proxies, out.groups, out.rules.rules)
  {
    hide StagesOf, ReferencesResolve, Sources, Closed, Settled, PruneStage, Merged;
    AssembleResolves(inp, Sources(inp), StagesOf(inp, NamespacedAll(Sources(inp))));
  }

  /** With sources only, closure needs nothing but each source's own: the fallback may be any
      built-in or the selector. */
  lemma SourcesAloneClose(inp: Input)
    requires Settled(inp) && inp.ownProxies == [] && inp.ownGroups == [] && inp.customs == []
    requires TargetName(inp.fallback) && (inp.fallback in BUILTINS || inp.fallback == inp.selector)
    requires forall i :: 0 <= i < |Sources(inp)| ==> SourceRegular(Sources(inp)[i]) && SourceClosed(Sources(inp)[i])
    ensures var out := Build(inp); ReferencesResolve(out.proxies, out.groups, out.rules.rules)
  {
    hide Build, StagesOf, ReferencesResolve, Sources, SourceClosed, SourceRegular, TargetName, Settled;
    assert Closed(inp, Sources(inp), StagesOf(inp, NamespacedAll(Sources(inp))));
    BuildClosesReferences(inp);
  }

  // ----- groups without members

  lemma BuildGroupsAreGroups(inp: Input, raw: seq<Contribution>, s: Stages)
    requires Settled(inp) && Regulars(inp, raw) && s == StagesOf(inp, NamespacedAll(raw))
    ensures StageLaws(s, inp.selector) && AllGroups(s.all)
  {
    hide StagesOf, AddGroups, AddProxies, GroupPart, ProxyPart, Emits, UpstreamNames, IsChain, NamespacedAll,
         RegionLaws, SiblingList, IsGroup, FindNamed;
    BuildStarts(inp, NamespacedAll(raw));
    BaseHolds(inp, raw, s);
    StagesHold(inp, s, Upstream(inp, NamespacedAll(raw)));
  }

  /** Every group the whole build serves has a member exactly when, before pruning, no protected
      group was empty and no other group's members all named removed groups. */
  lemma BuildFillsGroups(inp: Input)
    requires Settled(inp) && Regulars(inp, Sources(inp))
    ensures AllFilled(Build(inp).groups) <==>
            PruningFills(StagesOf(inp, NamespacedAll(Sources(inp))).all, inp.selector, inp.fallback)
  {
    hide StagesOf, Sources, Merged, PruneGroups, AllFilled, PruningFills, StageLaws, AllGroups, Regulars, Settled;
    var s := StagesOf(inp, NamespacedAll(Sources(inp)));
    BuildGroupsAreGroups(inp, Sources(inp), s);
    PruneFillsExactly(s.all, Merged(Contributors(inp, NamespacedAll(Sources(inp))), inp.fallback).rules, inp.selector,
                      inp.fallback);
  }

  // ----- references the passes do not close

  /** A name resolves in what the whole build serves exactly when it is a built-in, a served proxy,
      or a group before pruning that was not doomed. */
  lemma BuildResolvesExactly(inp: Input, x: string)
    requires Settled(inp) && Regulars(inp, Sources(inp))
    ensures var s := StagesOf(inp, NamespacedAll(Sources(inp)));
            Resolves(x, Build(inp).proxies, Build(inp).groups) <==>
              || x in BUILTINS || NodeNamed(s.merged + s.copies, x)
              || exists g :: g in s.all && Name(g) == x && !Doomed(s.all, inp.selector, inp.fallback, g)
  {
    hide StagesOf, Sources, Merged, PruneGroups, StageLaws, AllGroups, Regulars, Settled, NodeNamed, Doomed, Name;
    var s := StagesOf(inp, NamespacedAll(Sources(inp)));
    BuildGroupsAreGroups(inp, Sources(inp), s);
    ServedNameExactly(s.all, Merged(Contributors(inp, NamespacedAll(Sources(inp))), inp.fallback).rules, inp.selector,
                      inp.fallback, x);
  }

  /** The fetch-through proxy of source `i`'s provider definition `v`: a built-in or one of the
      source's proxies always resolves; a name that no served proxy has resolves exactly when a group
      of that name survives pruning. */
  lemma FetchProxyResolves(inp: Input, i: nat, key: string, v: Node)
    requires Settled(inp) && Regulars(inp, Sources(inp)) && i < |Sources(inp)|
    requires Settable(v, "proxy") && GetField(v, "proxy") != ""
    ensures var s, c := StagesOf(inp, NamespacedAll(Sources(inp))), Sources(inp)[i];
            var raw, x := GetField(v, "proxy"), GetField(ProviderValue(c.name, key, v), "proxy");
            && x == PrefixedRef(c.name, raw)
            && (raw in BUILTINS || NodeNamed(c.proxies, raw) ==> Resolves(x, Build(inp).proxies, Build(inp).groups))
            && (x !in BUILTINS && !NodeNamed(s.merged + s.copies, x) ==>
                (Resolves(x, Build(inp).proxies, Build(inp).groups) <==>
                 exists g :: g in s.all && Name(g) == x && !Doomed(s.all, inp.selector, inp.fallback, g)))
  {
    hide Build, StagesOf, Sources, Resolves, Doomed, GetField, ProviderValue, Regulars, Settled, StartsFrom,
         NamespacedAll;
    var raws, s := Sources(inp), StagesOf(inp, NamespacedAll(Sources(inp)));
    var c, raw := raws[i], GetField(v, "proxy");
    FetchProxyOf(c.name, key, v);
    BuildResolvesExactly(inp, PrefixedRef(c.name, raw));
    if NodeNamed(c.proxies, raw) {
      BuildStarts(inp, NamespacedAll(raws));
      SourceProxyEmitted(inp, raws, i, raw);
      MergedIsServed(s, Prefixed(c.name, raw));
    }
  }

  lemma MergedIsServed(s: Stages, x: string)
    requires NodeNamed(s.merged, x)
    ensures NodeNamed(s.merged + s.copies, x)
  {
    var i :| 0 <= i < |s.merged| && Name(s.merged[i]) == x;
    assert (s.merged + s.copies)[i] == s.merged[i];
  }
}
