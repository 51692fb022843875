/** What the whole build guarantees about the generated groups and the fan-out copies. */
module GeneratedLaws {
  import opened Text
  import opened Sorting
  import opened Yaml
  import opened RuleLine
  import opened Subscriptions
  import opened Namespace
  import opened MergeNodes
  import opened RuleMerge
  import opened RegionTable
  import opened Regions
  import opened Fanout
  import opened Prune
  import opened Pipeline
  import opened Closure
  import opened BuildLaws

  // ----- no group but the generated ones carries a target prefix

  ghost predicate Untargeted(gs: seq<Node>) { forall i :: 0 <= i < |gs| ==> !IsTarget(Name(gs[i])) }

  /** Neither an own group nor the selector is named like a generated group. */
  ghost predicate PrefixesFree(inp: Input) {
    && !IsTarget(inp.selector)
    && forall j :: 0 <= j < |inp.ownGroups| ==> !IsTarget(OwnName(Name(inp.ownGroups[j])))
  }

  lemma PrefixedIsNoTarget(source: string, n: string)
    requires LowerName(source)
    ensures !IsTarget(Prefixed(source, n))
  {
    LowerNameHasNoUnderscore(source, n);
  }

  lemma GroupItemUntargeted(inp: Input, raw: seq<Contribution>, k: nat)
    requires Regulars(inp, raw) && PrefixesFree(inp) && k < |GroupPart(inp, NamespacedAll(raw))|
    ensures !IsTarget(Name(GroupPart(inp, NamespacedAll(raw))[k].node))
  {
    var item := GroupPart(inp, NamespacedAll(raw))[k];
    GroupPartShape(inp, raw, k);
    if j :| 0 <= j < |inp.ownGroups| && item.node == OwnGroups(inp)[j] {
      MappedAt(inp.ownGroups, OwnPrefixer(), OwnRefPrefixer(OwnNames(inp.ownProxies, inp.ownGroups)), j);
    } else {
      var i, j :| 0 <= i < |raw| && 0 <= j < |raw[i].groups|
          && item.node == RewriteGroups(raw[i].name, raw[i].groups)[j];
      MappedAt(raw[i].groups, Prefixer(raw[i].name), RefPrefixer(raw[i].name), j);
      PrefixedIsNoTarget(raw[i].name, Name(raw[i].groups[j]));
    }
  }

  lemma BaseUntargeted(inp: Input, raw: seq<Contribution>, base: seq<Node>)
    requires Regulars(inp, raw) && PrefixesFree(inp) && base == AddGroups(GroupPart(inp, NamespacedAll(raw))).merged
    ensures Untargeted(base)
  {
    var items := GroupPart(inp, NamespacedAll(raw));
    PartsRegular(inp, raw);
    MergedGroupsCover(items, EVERYTHING);
    forall i | 0 <= i < |base| ensures !IsTarget(Name(base[i])) {
      assert Name(base[i]) in AddGroups(items).index;
      assert ItemNamed(items, Name(base[i]));
      var k :| 0 <= k < |items| && Name(items[k].node) == Name(base[i]);
      GroupItemUntargeted(inp, raw, k);
    }
  }

  lemma SelectedUntargeted(base: seq<Node>, names: seq<string>, selector: string)
    requires Untargeted(base) && AllGroups(base) && selector != "" && !IsTarget(selector)
    ensures Untargeted(WithSelector(base, names, selector))
  {
    var r := WithSelector(base, names, selector);
    WithSelectorLaw(base, names, selector, EVERYTHING);
    forall i | 0 <= i < |r| ensures !IsTarget(Name(r[i])) {
      if i < |base| { assert Names(r)[..|base|][i] == Name(base[i]); }
    }
  }

  // ----- the targets are the generated groups

  /** The names a predicate picks, in order. */
  function Pick(names: seq<string>, hit: string -> bool): (r: seq<string>) {
    if names == [] then [] else
      Pick(names[..|names| - 1], hit) + (if hit(names[|names| - 1]) then [names[|names| - 1]] else [])
  }

  function Targets(): (hit: string -> bool) { (n: string) => IsTarget(n) }

  /** Fan-out sees names only. */
  lemma {:induction false} TargetsPicked(gs: seq<Node>)
    ensures TargetNames(gs) == Pick(Names(gs), Targets())
  {
    if gs != [] {
      TargetsPicked(gs[..|gs| - 1]);
      assert Names(gs)[..|gs| - 1] == Names(gs[..|gs| - 1]);
    }
  }

  lemma PickSnoc(names: seq<string>, n: string, hit: string -> bool)
    ensures Pick(names + [n], hit) == Pick(names, hit) + (if hit(n) then [n] else []) && Pick([], hit) == []
  {
    assert (names + [n])[..|names|] == names;
  }

  lemma {:induction false} PickAppend(a: seq<string>, b: seq<string>, hit: string -> bool)
    requires forall i :: 0 <= i < |a| ==> !hit(a[i])
    requires forall i :: 0 <= i < |b| ==> hit(b[i])
    ensures Pick(a + b, hit) == b
  {
    hide Pick;
    if b != [] {
      var init, n := b[..|b| - 1], b[|b| - 1];
      PickAppend(a, init, hit);
      PickSnoc(a + init, n, hit);
      assert a + b == a + init + [n] && b == init + [n];
    } else if a != [] {
      var init, n := a[..|a| - 1], a[|a| - 1];
      PickAppend(init, b, hit);
      PickSnoc(init, n, hit);
      assert a + b == init + [n] && init + b == init;
    } else {
      PickSnoc([], "", hit);
      assert a + b == [];
    }
  }

  ghost predicate TargetPrefixes(prefix: string, lbPrefix: string) {
    || (prefix == REGION && lbPrefix == LB_REGION)
    || (prefix == CONTINENT && lbPrefix == LB_CONTINENT)
  }

  lemma SiblingNames(made: seq<Node>, keys: seq<string>, members: map<string, seq<string>>, prefix: string,
                     lbPrefix: string)
    requires SiblingList(made, keys, members, prefix, lbPrefix)
    ensures Names(made) == PairNames(keys, prefix, lbPrefix)
  {
    forall i | 0 <= i < |made| ensures Names(made)[i] == PairNames(keys, prefix, lbPrefix)[i] {
      SiblingAt(made, keys, members, prefix, lbPrefix, i);
      PairNamesAt(keys, prefix, lbPrefix, i);
    }
  }

  lemma NamesSplit(gs: seq<Node>, r: seq<Node>)
    requires |gs| <= |r| && forall i :: 0 <= i < |gs| ==> Name(r[i]) == Name(gs[i])
    ensures Names(r) == Names(gs) + Names(r[|gs|..])
  {
  }

  lemma ExtendedNames(gs: seq<Node>, r: seq<Node>, selector: string, keys: seq<string>,
                      members: map<string, seq<string>>, prefix: string, lbPrefix: string)
    requires Extended(gs, r, selector) && SiblingList(r[|gs|..], keys, members, prefix, lbPrefix)
    ensures Names(r) == Names(gs) + PairNames(keys, prefix, lbPrefix)
  {
    NamesSplit(gs, r);
    SiblingNames(r[|gs|..], keys, members, prefix, lbPrefix);
  }

  /** The generated group names, in order. */
  function GeneratedNames(s: Stages): (r: seq<string>) {
    PairNames(s.regionKeys, REGION, LB_REGION) + PairNames(s.continentKeys, CONTINENT, LB_CONTINENT)
  }

  lemma PairNamesAreTargets(keys: seq<string>, prefix: string, lbPrefix: string)
    requires TargetPrefixes(prefix, lbPrefix)
    ensures forall i :: 0 <= i < 2 * |keys| ==> IsTarget(PairNames(keys, prefix, lbPrefix)[i])
  {
    forall i | 0 <= i < 2 * |keys| ensures IsTarget(PairNames(keys, prefix, lbPrefix)[i]) {
      PairNamesAt(keys, prefix, lbPrefix, i);
    }
  }

  lemma Associate(a: seq<string>, b: seq<string>, c: seq<string>)
    ensures (a + b) + c == a + (b + c)
  {
  }

  lemma TargetsAreGenerated(s: Stages, selector: string)
    requires StageLaws(s, selector) && Untargeted(s.selected)
    ensures TargetNames(s.all) == GeneratedNames(s)
  {
    hide PairNames, Extended, SiblingList, AllGroups, FindNamed, Name, IsTarget, TargetNames, Pick;
    ExtendedNames(s.selected, s.regions, selector, s.regionKeys, s.regionLists, REGION, LB_REGION);
    ExtendedNames(s.regions, s.all, selector, s.continentKeys, s.continentLists, CONTINENT, LB_CONTINENT);
    var p, q := PairNames(s.regionKeys, REGION, LB_REGION), PairNames(s.continentKeys, CONTINENT, LB_CONTINENT);
    Associate(Names(s.selected), p, q);
    TargetsPicked(s.all);
    PairNamesAreTargets(s.regionKeys, REGION, LB_REGION);
    PairNamesAreTargets(s.continentKeys, CONTINENT, LB_CONTINENT);
    PickAppend(Names(s.selected), p + q, Targets());
  }

  // ----- their tags are clean and distinct

  ghost predicate LetterKeys(keys: seq<string>) {
    Distinct(keys) && forall k :: 0 <= k < |keys| ==> LetterKey(keys[k])
  }

  lemma StemInjective(p1: string, k1: string, p2: string, k2: string)
    requires p1 != "" && p2 != "" && p1[|p1| - 1] == '_' && p2[|p2| - 1] == '_'
    requires LetterKey(k1) && LetterKey(k2) && p1 + k1 == p2 + k2
    ensures p1 == p2 && k1 == k2
  {
    var s := p1 + k1;
    assert s[|p1| - 1] == '_' && (p2 + k2)[|p2| - 1] == '_';
    assert forall i :: |p1| <= i < |s| ==> s[i] == k1[i - |p1|];
    assert forall i :: |p2| <= i < |s| ==> s[i] == k2[i - |p2|];
    assert |p1| == |p2|;
    assert s[..|p1|] == p1 && s[|p1|..] == k1 && s[..|p2|] == p2 && s[|p2|..] == k2;
  }

  /** Target `i` of the generated names, as prefix and key. */
  ghost predicate TargetIs(s: Stages, i: nat, prefix: string, key: string) {
    && i < |GeneratedNames(s)| && GeneratedNames(s)[i] == prefix + key && LetterKey(key)
    && prefix in {REGION, LB_REGION, CONTINENT, LB_CONTINENT}
  }

  function TargetPrefix(s: Stages, i: nat): (r: string) {
    if i < 2 * |s.regionKeys| then if i % 2 == 0 then REGION else LB_REGION
    else if i % 2 == 0 then CONTINENT else LB_CONTINENT
  }

  function TargetKey(s: Stages, i: nat): (r: string)
    requires i < |GeneratedNames(s)|
  {
    if i < 2 * |s.regionKeys| then s.regionKeys[i / 2] else s.continentKeys[i / 2 - |s.regionKeys|]
  }

  lemma TargetParts(s: Stages, i: nat)
    requires LetterKeys(s.regionKeys) && LetterKeys(s.continentKeys) && i < |GeneratedNames(s)|
    ensures TargetIs(s, i, TargetPrefix(s, i), TargetKey(s, i))
  {
    var n := 2 * |s.regionKeys|;
    if i < n { PairNamesAt(s.regionKeys, REGION, LB_REGION, i); }
    else {
      PairNamesAt(s.continentKeys, CONTINENT, LB_CONTINENT, i - n);
      assert (i - n) / 2 == i / 2 - |s.regionKeys| && (i - n) % 2 == i % 2;
    }
  }

  lemma TargetPartsInjective(s: Stages, i: nat, j: nat)
    requires LetterKeys(s.regionKeys) && LetterKeys(s.continentKeys) && i < |GeneratedNames(s)|
             && j < |GeneratedNames(s)|
    requires TargetPrefix(s, i) == TargetPrefix(s, j) && TargetKey(s, i) == TargetKey(s, j)
    ensures i == j
  {
    assert i / 2 == j / 2;
    assert i % 2 == j % 2;
  }

  lemma PrefixStems(prefix: string)
    requires prefix in {REGION, LB_REGION, CONTINENT, LB_CONTINENT}
    ensures |prefix| > 2 && prefix[0] == '_' && prefix[1..][|prefix[1..]| - 1] == '_'
    ensures forall q :: q in {REGION, LB_REGION, CONTINENT, LB_CONTINENT} && q[1..] == prefix[1..] ==> q == prefix
  {
    forall q | q in {REGION, LB_REGION, CONTINENT, LB_CONTINENT} && q[1..] == prefix[1..] ensures q == prefix {
      assert q == [q[0]] + q[1..] && prefix == [prefix[0]] + prefix[1..];
    }
  }

  lemma TagOf(s: Stages, j: nat)
    requires LetterKeys(s.regionKeys) && LetterKeys(s.continentKeys) && 0 < j <= |GeneratedNames(s)|
    ensures TagAt(GeneratedNames(s), j) == TargetPrefix(s, j - 1)[1..] + TargetKey(s, j - 1)
    ensures CleanTag(TagAt(GeneratedNames(s), j)) && TagAt(GeneratedNames(s), j) != "AUTO"
  {
    TargetParts(s, j - 1);
    GeneratedTags(TargetKey(s, j - 1));
  }

  lemma TagsDiffer(s: Stages, i: nat, j: nat)
    requires LetterKeys(s.regionKeys) && LetterKeys(s.continentKeys) && i <= |GeneratedNames(s)|
             && j <= |GeneratedNames(s)|
    requires TagAt(GeneratedNames(s), i) == TagAt(GeneratedNames(s), j)
    ensures i == j
  {
    if i > 0 { TagOf(s, i); }
    if j > 0 { TagOf(s, j); }
    if i > 0 && j > 0 {
      TargetParts(s, i - 1);
      TargetParts(s, j - 1);
      TagStems(TargetPrefix(s, i - 1), TargetKey(s, i - 1), TargetPrefix(s, j - 1), TargetKey(s, j - 1));
      TargetPartsInjective(s, i - 1, j - 1);
    }
  }

  lemma TagStems(p: string, k: string, q: string, l: string)
    requires p in {REGION, LB_REGION, CONTINENT, LB_CONTINENT} && q in {REGION, LB_REGION, CONTINENT, LB_CONTINENT}
    requires LetterKey(k) && LetterKey(l) && p[1..] + k == q[1..] + l
    ensures p == q && k == l
  {
    PrefixStems(p);
    PrefixStems(q);
    StemInjective(p[1..], k, q[1..], l);
  }

  lemma GeneratedTargetsClean(s: Stages)
    requires LetterKeys(s.regionKeys) && LetterKeys(s.continentKeys)
    ensures CleanTargets(GeneratedNames(s))
  {
    var targets := GeneratedNames(s);
    forall j | 0 <= j <= |targets| ensures CleanTag(TagAt(targets, j)) { if j > 0 { TagOf(s, j); } }
    forall i, j | 0 <= i <= |targets| && 0 <= j <= |targets| && TagAt(targets, i) == TagAt(targets, j) ensures i == j {
      TagsDiffer(s, i, j);
    }
  }

  // ----- the keys are letters, the lists are not empty

  lemma {:induction false} ContinentCodesLaw(ccs: seq<string>, t: Tables)
    requires ValidTables(t)
    ensures forall c :: c in Codes(ccs, ByContinent(t)) ==> TwoLetters(c)
  {
    if ccs != [] {
      ContinentCodesLaw(ccs[..|ccs| - 1], t);
      ContinentCodes(t.continents, ccs[|ccs| - 1], 0);
    }
  }

  lemma SortedKeysDistinct(keys: set<string>)
    ensures Distinct(SortedKeys(keys))
  {
    var s := SortedKeys(keys);
    forall i, j | 0 <= i < j < |s| ensures s[i] != s[j] { LessTotal(s[i], s[j]); }
  }

  lemma RegionKeysAreLetters(names: seq<string>, t: Tables)
    requires ValidTables(t)
    ensures LetterKeys(RegionKeys(names, ByCountry(t)))
  {
    CountriesAreCoded(t);
    LetterRegionKeys(names, ByCountry(t));
  }

  lemma LetterRegionKeys(names: seq<string>, code: Classifier)
    requires Coded(code)
    ensures LetterKeys(RegionKeys(names, code))
  {
    var keys := RegionKeys(names, code);
    RegionKeysDistinct(names, code);
    forall k | 0 <= k < |keys| ensures LetterKey(keys[k]) {
      RegionMembersLaw(names, code, k);
      assert keys[k] == UNKNOWN || TwoLetters(keys[k]);
      CodesAreLetters(keys[k]);
    }
  }

  lemma CodesAreLetters(key: string)
    requires key == UNKNOWN || TwoLetters(key)
    ensures LetterKey(key)
  {
  }

  lemma ContinentKeysAreLetters(regions: seq<Node>, t: Tables)
    requires ValidTables(t)
    ensures LetterKeys(ContinentKeys(regions, t))
  {
    var keys := ContinentKeys(regions, t);
    ContinentCodesLaw(RegionCodesOf(regions), t);
    SortedKeysDistinct(Codes(RegionCodesOf(regions), ByContinent(t)));
    forall k | 0 <= k < |keys| ensures LetterKey(keys[k]) { assert keys[k] in keys; }
  }

  /** The scan of the region stage finds exactly the generated regions. */
  lemma ScanFindsRegions(base: seq<Node>, selected: seq<Node>, regions: seq<Node>, keys: seq<string>,
                         lists: map<string, seq<string>>, selector: string)
    requires RegionLaws(base, selected, regions, keys, lists, selector) && Untargeted(selected) && LetterKeys(keys)
    ensures RegionCodesOf(regions) == keys && RegionListsOf(regions) == ListsFor(keys, lists)
  {
    var gs, made := regions[..|selected|], regions[|selected|..];
    assert regions == gs + made;
    assert NoRegionNames(gs) by {
      forall i | 0 <= i < |gs| ensures !IsRegionName(Name(gs[i])) {
        NotRegionName(Name(selected[i]));
        assert Name(gs[i]) == Name(selected[i]);
      }
    }
    RegionScan(gs, made, keys, lists);
  }

  lemma NotRegionName(n: string)
    requires !IsTarget(n)
    ensures !IsRegionName(n)
  {
  }

  /** Each continent key's list, in terms of the upstream names, and never empty. */
  ghost predicate ContinentsListCountries(keys: seq<string>, lists: map<string, seq<string>>, names: seq<string>,
                                          t: Tables) {
    forall k :: 0 <= k < |keys| ==>
      var list := Lookup(lists, keys[k]);
      var ccs := Countries(RegionKeys(names, ByCountry(t)), keys[k], ByContinent(t));
      list == ConcatBuckets(SortedKeys(ccs), names, ByCountry(t)) && list != []
  }

  lemma ContinentListsFollow(regions: seq<Node>, rk: seq<string>, names: seq<string>, t: Tables)
    requires ValidTables(t) && rk == RegionKeys(names, ByCountry(t))
    requires RegionCodesOf(regions) == rk && RegionListsOf(regions) == ListsFor(rk, RegionMembers(names, ByCountry(t)))
    ensures ContinentsListCountries(ContinentKeys(regions, t), ContinentLists(regions, t), names, t)
  {
    var keys := ContinentKeys(regions, t);
    forall k | 0 <= k < |keys|
      ensures && Lookup(ContinentLists(regions, t), keys[k])
                 == ConcatBuckets(SortedKeys(Countries(RegionKeys(names, ByCountry(t)), keys[k], ByContinent(t))),
                                  names, ByCountry(t))
              && Lookup(ContinentLists(regions, t), keys[k]) != []
    {
      assert keys[k] in keys;
      ContinentsConcatenate(names, t, keys[k]);
    }
  }

  lemma ContinentsFollowRegions(s: Stages, names: seq<string>, selector: string, t: Tables, p: Params)
    requires StagesOk(s, names, selector, t, p)
    ensures RegionCodesOf(s.regions) == s.regionKeys
    ensures ContinentsListCountries(s.continentKeys, s.continentLists, names, t)
  {
    RegionKeysAreLetters(names, t);
    ScanFindsRegions(s.base, s.selected, s.regions, s.regionKeys, s.regionLists, selector);
    ContinentListsFollow(s.regions, s.regionKeys, names, t);
  }

  // ----- the theorems

  /** What a build with free prefixes has at its stages. */
  ghost predicate StagesOk(s: Stages, names: seq<string>, selector: string, t: Tables, p: Params) {
    && IsChain(s, names, selector, t, p) && ValidTables(t) && StageLaws(s, selector) && Untargeted(s.selected)
  }

  lemma BuildStagesOk(inp: Input, raw: seq<Contribution>, s: Stages)
    requires Settled(inp) && Regulars(inp, raw) && PrefixesFree(inp) && s == StagesOf(inp, NamespacedAll(raw))
    ensures StagesOk(s, Upstream(inp, NamespacedAll(raw)), inp.selector, inp.tables, inp.params)
  {
    hide AddGroups, AddProxies, GroupPart, ProxyPart, StageLaws, WithSelector, WithRegions, WithContinents, StagesOf,
         Emits, AllGroups, Untargeted, UpstreamNames, IsTarget, RegionKeys, RegionMembers, ContinentKeys,
           ContinentLists, NamespacedAll;
    var names := Upstream(inp, NamespacedAll(raw));
    BuildStarts(inp, NamespacedAll(raw));
    BaseHolds(inp, raw, s);
    StagesHold(inp, s, names);
    BaseUntargeted(inp, raw, s.base);
    SelectedUntargeted(s.base, names, inp.selector);
  }

  ghost predicate GeneratesRegions(s: Stages, names: seq<string>, t: Tables) {
    var keys := RegionKeys(names, ByCountry(t));
    && |s.selected| <= |s.regions| <= |s.all|
    && SiblingList(s.regions[|s.selected|..], keys, RegionMembers(names, ByCountry(t)), "_region_", "_lb_region_")
    && SiblingList(s.all[|s.regions|..], s.continentKeys, s.continentLists, "_continent_", "_lb_continent_")
    && s.continentKeys == SortedKeys(Codes(keys, ByContinent(t)))
    && ContinentsListCountries(s.continentKeys, s.continentLists, names, t)
  }

  /** The groups generated from the upstream names: one adjacent url-test/load-balance pair per
      class with the names of that class in order, then one pair per continent with its countries'
      lists in code order; none of them is empty. */
  lemma BuildGeneratesRegions(inp: Input)
    requires Settled(inp) && Regulars(inp, Sources(inp)) && PrefixesFree(inp)
    ensures var cs := NamespacedAll(Sources(inp)); GeneratesRegions(StagesOf(inp, cs), Upstream(inp, cs), inp.tables)
  {
    hide StagesOf, Sources, Upstream, SiblingList, ContinentsListCountries, Untargeted, WithSelector, WithRegions,
         WithContinents, RegionKeys, RegionMembers, ByCountry, ByContinent, AllGroups, FindNamed, Names,
           ContinentMembers, Codes, SortedKeys, ValidTables;
    var cs := NamespacedAll(Sources(inp));
    BuildStagesOk(inp, Sources(inp), StagesOf(inp, cs));
    ContinentsFollowRegions(StagesOf(inp, cs), Upstream(inp, cs), inp.selector, inp.tables, inp.params);
  }

  // ----- dialer targets survive

  /** A generated name belongs to a generated group that has members. */
  lemma PairNamed(made: seq<Node>, keys: seq<string>, lists: map<string, seq<string>>, prefix: string,
                  lbPrefix: string, x: string)
    returns (i: nat, g: Node)
    requires SiblingList(made, keys, lists, prefix, lbPrefix) && x in PairNames(keys, prefix, lbPrefix)
    requires forall k :: 0 <= k < |keys| ==> Lookup(lists, keys[k]) != []
    ensures i < |made| && g == made[i] && Name(g) == x && Members(g) != []
  {
    i :| 0 <= i < |PairNames(keys, prefix, lbPrefix)| && PairNames(keys, prefix, lbPrefix)[i] == x;
    PairNamesAt(keys, prefix, lbPrefix, i);
    SiblingAt(made, keys, lists, prefix, lbPrefix, i);
    g := made[i];
  }

  lemma NonEmptySurvives(gs: seq<Node>, g: Node, x: string, rules: seq<string>, selector: string, fallback: string)
    requires AllGroups(gs) && g in gs && Name(g) == x && Members(g) != []
    ensures NodeNamed(PruneGroups(gs, rules, selector, fallback).groups, x)
  {
    SurvivingName(gs, rules, selector, fallback, g);
  }

  lemma SelectorSurvives(s: Stages, rules: seq<string>, selector: string, fallback: string)
    requires StageLaws(s, selector) && selector != ""
    ensures NodeNamed(PruneGroups(s.all, rules, selector, fallback).groups, selector)
  {
    var i := FindNamed(s.all, selector);
    assert s.all[i] in s.all;
    SurvivingName(s.all, rules, selector, fallback, s.all[i]);
  }

  lemma Inherited(gs: seq<Node>, r: seq<Node>, selector: string, i: nat)
    requires Extended(gs, r, selector) && i < |gs| && Name(gs[i]) != selector
    ensures gs[i] in r
  {
    assert r[i] == gs[i];
  }

  lemma KeptSiblingSurvives(made: seq<Node>, all: seq<Node>, keys: seq<string>, lists: map<string, seq<string>>,
                            prefix: string, lbPrefix: string, x: string, rules: seq<string>, selector: string,
                              fallback: string)
    requires AllGroups(all) && SiblingList(made, keys, lists, prefix, lbPrefix)
             && x in PairNames(keys, prefix, lbPrefix)
    requires forall i :: 0 <= i < |made| && Name(made[i]) == x ==> made[i] in all
    requires forall k :: 0 <= k < |keys| ==> Lookup(lists, keys[k]) != []
    ensures NodeNamed(PruneGroups(all, rules, selector, fallback).groups, x)
  {
    var i, g := PairNamed(made, keys, lists, prefix, lbPrefix, x);
    NonEmptySurvives(all, g, x, rules, selector, fallback);
  }

  lemma NoPairIsTheSelector(keys: seq<string>, prefix: string, lbPrefix: string, selector: string)
    requires TargetPrefixes(prefix, lbPrefix) && !IsTarget(selector)
    ensures selector !in PairNames(keys, prefix, lbPrefix)
  {
    PairNamesAreTargets(keys, prefix, lbPrefix);
  }

  lemma RegionListsNotEmpty(names: seq<string>, code: Classifier, keys: seq<string>, lists: map<string, seq<string>>)
    requires Coded(code) && keys == RegionKeys(names, code) && lists == RegionMembers(names, code)
    ensures forall k :: 0 <= k < |keys| ==> Lookup(lists, keys[k]) != []
  {
    forall k | 0 <= k < |keys| ensures Lookup(lists, keys[k]) != [] { RegionMembersLaw(names, code, k); }
  }

  lemma RegionsInherited(selected: seq<Node>, regions: seq<Node>, all: seq<Node>, selector: string, x: string)
    requires Extended(selected, regions, selector) && Extended(regions, all, selector) && x != selector
    ensures forall i :: 0 <= i < |regions| - |selected| && Name(regions[|selected|..][i]) == x ==>
              regions[|selected|..][i] in all
  {
    hide Name, AllGroups;
    forall i | 0 <= i < |regions| - |selected| && Name(regions[|selected|..][i]) == x
      ensures regions[|selected|..][i] in all
    {
      Inherited(regions, all, selector, |selected| + i);
    }
  }

  lemma RegionsSurvive(s: Stages, names: seq<string>, selector: string, t: Tables, p: Params, rules: seq<string>,
                       fallback: string, x: string)
    requires StagesOk(s, names, selector, t, p) && !IsTarget(selector)
             && x in PairNames(s.regionKeys, REGION, LB_REGION)
    ensures NodeNamed(PruneGroups(s.all, rules, selector, fallback).groups, x)
  {
    hide PruneGroups, IsTarget, Name, Members, Coded, SiblingList, RegionKeys, RegionMembers, PairNames, Lookup,
         AllGroups, NodeNamed, ByCountry, WithSelector, WithRegions, WithContinents, ContinentMembers, Untargeted;
    CountriesAreCoded(t);
    NoPairIsTheSelector(s.regionKeys, REGION, LB_REGION, selector);
    RegionListsNotEmpty(names, ByCountry(t), s.regionKeys, s.regionLists);
    RegionsInherited(s.selected, s.regions, s.all, selector, x);
    KeptSiblingSurvives(s.regions[|s.selected|..], s.all, s.regionKeys, s.regionLists, REGION, LB_REGION, x, rules,
                        selector, fallback);
  }

  lemma ContinentsSurvive(s: Stages, names: seq<string>, selector: string, t: Tables, p: Params, rules: seq<string>,
                          fallback: string, x: string)
    requires StagesOk(s, names, selector, t, p) && x in PairNames(s.continentKeys, CONTINENT, LB_CONTINENT)
    ensures NodeNamed(PruneGroups(s.all, rules, selector, fallback).groups, x)
  {
    hide PruneGroups, IsTarget, Name, Members, Coded, SiblingList, RegionKeys, RegionMembers, PairNames, Lookup,
         AllGroups, NodeNamed, ByCountry, WithSelector, WithRegions, WithContinents, ContinentMembers, Untargeted;
    ContinentsFollowRegions(s, names, selector, t, p);
    var tail := s.all[|s.regions|..];
    assert forall i :: 0 <= i < |tail| ==> tail[i] == s.all[|s.regions| + i];
    KeptSiblingSurvives(tail, s.all, s.continentKeys, s.continentLists, CONTINENT, LB_CONTINENT, x, rules, selector,
                        fallback);
  }

  lemma TargetsSurvive(s: Stages, names: seq<string>, selector: string, t: Tables, p: Params, rules: seq<string>,
                       fallback: string, x: string)
    requires StagesOk(s, names, selector, t, p) && !IsTarget(selector) && x in GeneratedNames(s)
    ensures NodeNamed(PruneGroups(s.all, rules, selector, fallback).groups, x)
  {
    hide PruneGroups, IsTarget, PairNames, NodeNamed, StagesOk;
    if x in PairNames(s.regionKeys, REGION, LB_REGION) {
      RegionsSurvive(s, names, selector, t, p, rules, fallback, x);
    } else {
      ContinentsSurvive(s, names, selector, t, p, rules, fallback, x);
    }
  }

  // ----- fan-out

  lemma {:induction false} EligibleDistinct(owns: seq<Node>)
    requires DistinctlyNamed(owns)
    ensures NamesDistinct(EligibleOwns(owns))
    ensures forall e :: e in EligibleOwns(owns) ==> e in owns
  {
    hide Name, GetField;
    if owns != [] {
      var init, o := owns[..|owns| - 1], owns[|owns| - 1];
      EligibleDistinct(init);
      var es := EligibleOwns(init);
      assert owns == init + [o];
      forall i | 0 <= i < |es| && Eligible(o) ensures Name(es[i]) != Name(o) {
        assert es[i] in es;
        var k :| 0 <= k < |init| && init[k] == es[i];
        assert owns[k] == es[i];
      }
    }
  }

  /** Own names as the merge writes them: `_` and the name in the file. */
  lemma OwnNamesLaw(ownProxies: seq<Node>)
    requires AllRegular(ownProxies) && DistinctlyNamed(ownProxies)
    ensures var own := RewriteOwnProxies(ownProxies);
            && DistinctlyNamed(own) && AllRegular(own)
            && forall i :: 0 <= i < |own| && Name(own[i]) != "" ==> Name(own[i]) == OwnName(Name(ownProxies[i]))
  {
    var own := RewriteOwnProxies(ownProxies);
    forall i | 0 <= i < |own|
      ensures Regular(own[i]) && Name(own[i]) == if Name(ownProxies[i]) == "" then "" else OwnName(Name(ownProxies[i]))
    {
      RenamedAt(ownProxies, OwnPrefixer(), i);
    }
    forall i, j | 0 <= i < j < |own| && Name(own[i]) != "" ensures Name(own[i]) != Name(own[j]) {
      assert Name(own[i])[1..] == Name(ownProxies[i]);
      assert Name(own[j]) != "" ==> Name(own[j])[1..] == Name(ownProxies[j]);
    }
  }

  /** A list of own proxies: regular, distinct names, each with its own prefix. */
  ghost predicate OwnList(own: seq<Node>) {
    && DistinctlyNamed(own) && AllRegular(own)
    && forall i :: 0 <= i < |own| && Name(own[i]) != "" ==> Name(own[i])[0] == '_'
  }

  lemma CopiesDistinct(own: seq<Node>, targets: seq<string>, selector: string)
    requires OwnList(own) && CleanTargets(targets)
    ensures NamesDistinct(Copies(own, targets, selector))
  {
    var es, cs := EligibleOwns(own), Copies(own, targets, selector);
    CopiesLaw(own, targets, selector);
    forall k, l | 0 <= k < l < |cs| ensures Name(cs[k]) != Name(cs[l]) {
      assert SlotExists(k, es, targets) && SlotExists(l, es, targets);
      var i1: nat, j1: nat :| i1 < |es| && j1 <= |targets| && k == Slot(i1, targets, j1);
      var i2: nat, j2: nat :| i2 < |es| && j2 <= |targets| && l == Slot(i2, targets, j2);
      if Name(cs[k]) == Name(cs[l]) { SameCopy(own, targets, selector, i1, j1, i2, j2); }
    }
  }

  lemma SameCopy(own: seq<Node>, targets: seq<string>, selector: string, i1: nat, j1: nat, i2: nat, j2: nat)
    requires OwnList(own) && CleanTargets(targets) && i1 < |EligibleOwns(own)| && i2 < |EligibleOwns(own)|
             && j1 <= |targets| && j2 <= |targets|
    requires var es := EligibleOwns(own);
             Name(CopyAt(es[i1], targets, selector, j1)) == Name(CopyAt(es[i2], targets, selector, j2))
    ensures i1 == i2 && j1 == j2
  {
    var es := EligibleOwns(own);
    EligibleDistinct(own);
    EligibleOwn(own, i1);
    EligibleOwn(own, i2);
    CopyNamesDistinct(es[i1], es[i2], targets, selector, j1, j2);
    StripOwn(Name(es[i1]), Name(es[i2]));
    assert !(i1 < i2) && !(i2 < i1);
  }

  lemma EligibleOwn(own: seq<Node>, i: nat)
    requires OwnList(own) && i < |EligibleOwns(own)|
    ensures Paired(EligibleOwns(own)[i]) && Name(EligibleOwns(own)[i])[0] == '_'
  {
    EligibleDistinct(own);
    assert EligibleOwns(own)[i] in EligibleOwns(own);
    var k :| 0 <= k < |own| && own[k] == EligibleOwns(own)[i];
  }

  lemma StripOwn(a: string, b: string)
    requires a != "" && b != "" && a[0] == '_' && b[0] == '_' && StripUnderscore(a) == StripUnderscore(b)
    ensures a == b
  {
    assert a == [a[0]] + a[1..] && b == [b[0]] + b[1..];
  }

  /** The fan-out of a whole build. */
  ghost predicate FansOut(own: seq<Node>, targets: seq<string>, selector: string, copies: seq<Node>,
                          groups: seq<Node>) {
    && CopyGrid(copies, EligibleOwns(own), targets, selector) && NamesDistinct(copies)
    && NodeNamed(groups, selector)
    && forall x :: x in targets ==> NodeNamed(groups, x)
  }

  lemma StagesFanOut(s: Stages, names: seq<string>, own: seq<Node>, selector: string, t: Tables, p: Params,
                     rules: seq<string>, fallback: string, groups: seq<Node>)
    requires StagesOk(s, names, selector, t, p) && selector != "" && !IsTarget(selector) && OwnList(own)
    requires s.copies == FanoutProxies(own, s.all, selector)
             && groups == PruneGroups(s.all, rules, selector, fallback).groups
    ensures FansOut(own, GeneratedNames(s), selector, s.copies, groups)
  {
    hide StageLaws, PruneGroups, CopyGrid, IsTarget, OwnList, RegionKeys, RegionMembers, ContinentKeys,
         ContinentLists, Copies, TargetNames, CleanTargets, LetterKeys, NodeNamed, NamesDistinct, GeneratedNames,
           WithSelector, WithRegions, WithContinents;
    RegionKeysAreLetters(names, t);
    ContinentKeysAreLetters(s.regions, t);
    GeneratedTargetsClean(s);
    TargetsAreGenerated(s, selector);
    CopiesLaw(own, GeneratedNames(s), selector);
    CopiesDistinct(own, GeneratedNames(s), selector);
    SelectorSurvives(s, rules, selector, fallback);
    forall x | x in GeneratedNames(s) ensures NodeNamed(groups, x) {
      TargetsSurvive(s, names, selector, t, p, rules, fallback, x);
    }
  }

  lemma BuildParts(inp: Input, cs: seq<Contribution>)
    ensures var s := StagesOf(inp, cs);
            && Assemble(inp, cs).proxies == s.merged + s.copies
               && s.copies == FanoutProxies(OwnProxies(inp), s.all, inp.selector)
            && Assemble(inp, cs).groups == PruneGroups(s.all, Merged(Contributors(inp, cs), inp.fallback).rules,
                                                       inp.selector, inp.fallback).groups
  {
    hide AddProxies, AddGroups, WithSelector, WithRegions, WithContinents, Merged, PruneGroups, FanoutProxies;
  }

  /** Fan-out of the whole build: exactly one copy per eligible own proxy and dialer choice, under
      pairwise distinct names, and every dialer choice is a group that is served. */
  lemma BuildFansOut(inp: Input)
    requires Settled(inp) && Regulars(inp, Sources(inp)) && PrefixesFree(inp) && DistinctlyNamed(inp.ownProxies)
    ensures var s := StagesOf(inp, NamespacedAll(Sources(inp)));
            && Build(inp).proxies == s.merged + s.copies
            && FansOut(OwnProxies(inp), GeneratedNames(s), inp.selector, s.copies, Build(inp).groups)
  {
    hide StagesOf, Sources, FansOut, Merged, Assemble, StagesOk, PruneGroups, FanoutProxies, IsTarget,
         DistinctlyNamed, Name, RewriteOwnProxies;
    var raw, cs := Sources(inp), NamespacedAll(Sources(inp));
    BuildParts(inp, cs);
    BuildStagesOk(inp, raw, StagesOf(inp, cs));
    OwnNamesLaw(inp.ownProxies);
    assert OwnList(OwnProxies(inp));
    StagesFanOut(StagesOf(inp, cs), Upstream(inp, cs), OwnProxies(inp), inp.selector, inp.tables, inp.params,
                 Merged(Contributors(inp, cs), inp.fallback).rules, inp.fallback, Build(inp).groups);
  }

  /** `c` is the copy of the file's own proxy `p` that dials through `dialer`, under this tag. */
  ghost predicate CopyOf(p: Node, c: Node, tag: string, dialer: string) {
    && Name(c) == "via_" + tag + "__" + Name(p) && GetField(c, "dialer-proxy") == dialer && c.kind == p.kind
    && forall key :: key != "name" && key != "dialer-proxy" && key != "proxies" ==> GetNode(c, key) == GetNode(p, key)
  }

  /** Choice `j` of a dialer, and its tag: first the selector, tagged `AUTO`, then the generated groups, tagged
      with their names without the underscore. */
  ghost predicate DialChoice(targets: seq<string>, selector: string, j: nat, tag: string, dialer: string) {
    if j == 0 then tag == "AUTO" && dialer == selector
    else j <= |targets| && targets[j - 1] == dialer && dialer == "_" + tag
  }

  /** The file's proxy `p` fans out. */
  ghost predicate FansOutOf(p: Node) {
    p.kind == Mapping && GetField(p, "name") != "" && GetField(p, "dialer-proxy") == ""
  }

  lemma OwnFansOut(file: seq<Node>, i: nat) returns (e: nat)
    requires AllRegular(file) && i < |file| && FansOutOf(file[i])
    ensures e < |EligibleOwns(RewriteOwnProxies(file))|
            && EligibleOwns(RewriteOwnProxies(file))[e] == RewriteOwnProxies(file)[i]
    ensures OnlyRenamed(file[i], RewriteOwnProxies(file)[i], "_" + Name(file[i]))
  {
    hide GetField, Renamed, Name;
    var own := RewriteOwnProxies(file);
    RenamedIs(file[i], OwnPrefixer());
    OwnDialer(file[i]);
    var at := EligibleExactly(own);
    RenamedIsNamed(file[i], own[i]);
    assert i in at;
    e :| 0 <= e < |at| && at[e] == i;
  }

  lemma OwnDialer(p: Node)
    requires Regular(p)
    ensures GetField(Renamed(p, OwnPrefixer()), "dialer-proxy") == GetField(p, "dialer-proxy")
  {
    SetFieldOther(p, "name", OwnName(Name(p)), "dialer-proxy");
  }

  lemma RenamedIsNamed(p: Node, r: Node)
    requires OnlyRenamed(p, r, "_" + Name(p)) && GetField(p, "name") != ""
    ensures GetField(r, "name") != "" && r.kind == p.kind
  {
  }

  /** The copies, in terms of the own-proxies file: every named proxy without a dialer is served through
      every choice. */
  lemma BuildCopies(inp: Input, i: nat, j: nat, tag: string, dialer: string)
    requires Settled(inp) && Regulars(inp, Sources(inp)) && PrefixesFree(inp) && DistinctlyNamed(inp.ownProxies)
    requires i < |inp.ownProxies| && FansOutOf(inp.ownProxies[i])
    requires DialChoice(GeneratedNames(StagesOf(inp, NamespacedAll(Sources(inp)))), inp.selector, j, tag, dialer)
    ensures exists c :: c in Build(inp).proxies && CopyOf(inp.ownProxies[i], c, tag, dialer)
  {
    hide StagesOf, Sources, Build, NamespacedAll, IsTarget, Name, GetField, NamesDistinct, DistinctlyNamed, CopyAt,
         GeneratedNames, PrefixesFree, RewriteOwnProxies, Regular, EligibleOwns, CopyGrid, CopyOf, FansOutOf, Settled;
    var s := StagesOf(inp, NamespacedAll(Sources(inp)));
    var own, targets, p := RewriteOwnProxies(inp.ownProxies), GeneratedNames(s), inp.ownProxies[i];
    BuildFansOut(inp);
    var e := OwnFansOut(inp.ownProxies, i);
    CopyInGrid(s.merged, s.copies, EligibleOwns(own), targets, inp.selector, e, j);
    var c := CopyAt(own[i], targets, inp.selector, j);
    CopyIsOf(p, own[i], targets, inp.selector, j, tag);
  }

  lemma CopyInGrid(merged: seq<Node>, copies: seq<Node>, es: seq<Node>, targets: seq<string>, selector: string, e: nat,
                   j: nat)
    requires CopyGrid(copies, es, targets, selector) && e < |es| && j <= |targets|
    ensures CopyAt(es[e], targets, selector, j) in merged + copies
  {
    hide CopyAt;
    var k := Slot(e, targets, j);
    assert (merged + copies)[|merged| + k] == copies[k];
  }

  lemma CopyIsOf(p: Node, own: Node, targets: seq<string>, selector: string, j: nat, tag: string)
    requires Regular(p) && FansOutOf(p) && OnlyRenamed(p, own, "_" + Name(p)) && j <= |targets|
    requires if j == 0 then tag == "AUTO" else targets[j - 1] == "_" + tag
    ensures CopyOf(p, CopyAt(own, targets, selector, j), tag, if j == 0 then selector else targets[j - 1])
  {
    hide CopyAt, GetNode, GetField;
    CopyExactly(own, targets, selector, j, Name(p), tag);
  }

  // ----- all served proxy names

  /** A copy's name reads like a proxy of a source called `via`. */
  lemma CopyReadsAsVia(own: Node, targets: seq<string>, selector: string, j: nat)
    requires j <= |targets| && own.kind == Mapping && Paired(own)
    ensures Name(CopyAt(own, targets, selector, j))
            == Prefixed("via", TagAt(targets, j) + "__" + StripUnderscore(Name(own)))
  {
    hide Name, Copy, StripUnderscore, Paired;
    var p := StripUnderscore(Name(own));
    CopyLaw(own, ViaName(TagAt(targets, j), p), if j == 0 then selector else targets[j - 1], "type");
  }

  /** The name of a merged proxy is an own name or that of some source's proxy, prefixed. */
  lemma MergedNameShape(inp: Input, raw: seq<Contribution>, k: nat)
    requires Regulars(inp, raw) && k < |ProxyPart(inp, NamespacedAll(raw))|
    ensures var n := Name(ProxyPart(inp, NamespacedAll(raw))[k].node);
            || n == "" || (exists m :: n == OwnName(m))
            || (exists i, j :: 0 <= i < |raw| && 0 <= j < |raw[i].proxies|
                  && n == Prefixed(raw[i].name, Name(raw[i].proxies[j])))
  {
    var item := ProxyPart(inp, NamespacedAll(raw))[k];
    ProxyPartShape(inp, raw, k);
    if j :| 0 <= j < |inp.ownProxies| && item.node == OwnProxies(inp)[j] {
      RenamedAt(inp.ownProxies, OwnPrefixer(), j);
    } else {
      var i, j :| 0 <= i < |raw| && 0 <= j < |raw[i].proxies|
          && item.node == RewriteProxies(raw[i].name, raw[i].proxies)[j];
      RenamedAt(raw[i].proxies, Prefixer(raw[i].name), j);
    }
  }

  /** Some source called `via` has a proxy of this name. */
  ghost predicate ViaHas(raw: seq<Contribution>, name: string) {
    exists i :: 0 <= i < |raw| && raw[i].name == "via" && NodeNamed(raw[i].proxies, name)
  }

  /** A source called `via` has a proxy named like a copy: a tag, two underscores, an own name. */
  ghost predicate ViaTaken(raw: seq<Contribution>, es: seq<Node>, targets: seq<string>) {
    exists e: nat, j: nat :: e < |es| && j <= |targets| && ViaHas(raw, CopyTail(es[e], targets, j))
  }

  function CopyTail(own: Node, targets: seq<string>, j: nat): (r: string)
    requires j <= |targets|
  {
    TagAt(targets, j) + "__" + StripUnderscore(Name(own))
  }

  lemma MergedIsViaOnly(inp: Input, raw: seq<Contribution>, k: nat, tail: string)
    requires Regulars(inp, raw) && k < |ProxyPart(inp, NamespacedAll(raw))|
    requires Name(ProxyPart(inp, NamespacedAll(raw))[k].node) == Prefixed("via", tail)
    ensures ViaHas(raw, tail)
  {
    hide ProxyPart, Name, NamespacedAll;
    var n := Prefixed("via", tail);
    MergedNameShape(inp, raw, k);
    forall m ensures n != OwnName(m) { NamespacesDisjoint("via", tail, m); }
    var i, j :| 0 <= i < |raw| && 0 <= j < |raw[i].proxies| && n == Prefixed(raw[i].name, Name(raw[i].proxies[j]));
    assert SourceRegular(raw[i]);
    PrefixedInjective(raw[i].name, Name(raw[i].proxies[j]), "via", tail);
  }

  lemma DistinctAppend(a: seq<Node>, b: seq<Node>)
    requires NamesDistinct(a) && NamesDistinct(b)
             && forall i, j :: 0 <= i < |a| && 0 <= j < |b| ==> Name(a[i]) != Name(b[j])
    ensures NamesDistinct(a + b)
  {
    var r := a + b;
    forall i, j | 0 <= i < j < |r| ensures Name(r[i]) != Name(r[j]) {
      if i >= |a| { assert r[i] == b[i - |a|] && r[j] == b[j - |a|]; }
      else if j >= |a| { assert r[i] == a[i] && r[j] == b[j - |a|]; }
    }
  }

  /** A copy shares its name with a merged proxy exactly when a source called `via` has that name. */
  lemma CopyClash(inp: Input, raw: seq<Contribution>, merged: seq<Node>, own: Node, targets: seq<string>, j: nat)
    requires Regulars(inp, raw) && own.kind == Mapping && Paired(own) && j <= |targets|
    requires merged == AddProxies(ProxyPart(inp, NamespacedAll(raw))).merged
             && DistinctNames(ProxyPart(inp, NamespacedAll(raw)))
    ensures NodeNamed(merged, Name(CopyAt(own, targets, inp.selector, j))) <==> ViaHas(raw, CopyTail(own, targets, j))
  {
    hide AddProxies, ProxyPart, CopyAt, NamedNodes, NamespacedAll, Name;
    var items, tail := ProxyPart(inp, NamespacedAll(raw)), CopyTail(own, targets, j);
    CopyReadsAsVia(own, targets, inp.selector, j);
    DistinctProxiesMergeVerbatim(items);
    NamedNodesDistinct(items);
    if NodeNamed(merged, Prefixed("via", tail)) {
      assert ItemNamed(items, Prefixed("via", tail));
      var k :| 0 <= k < |items| && Name(items[k].node) == Prefixed("via", tail);
      MergedIsViaOnly(inp, raw, k, tail);
    }
    if ViaHas(raw, tail) {
      var i :| 0 <= i < |raw| && raw[i].name == "via" && NodeNamed(raw[i].proxies, tail);
      assert tail[|TagAt(targets, j)|] == '_';
      SourceProxyEmitted(inp, raw, i, tail);
    }
  }

  lemma ClashBreaks(a: seq<Node>, b: seq<Node>, k: nat)
    requires k < |b| && NodeNamed(a, Name(b[k]))
    ensures !NamesDistinct(a + b)
  {
    var i :| 0 <= i < |a| && Name(a[i]) == Name(b[k]);
    assert (a + b)[i] == a[i] && (a + b)[|a| + k] == b[k];
  }

  lemma ServedNames(inp: Input, raw: seq<Contribution>, merged: seq<Node>, copies: seq<Node>, targets: seq<string>,
                    groups: seq<Node>)
    requires NamedApart(inp, raw) && DistinctNames(ProxyPart(inp, NamespacedAll(raw)))
    requires merged == AddProxies(ProxyPart(inp, NamespacedAll(raw))).merged
    requires FansOut(OwnProxies(inp), targets, inp.selector, copies, groups)
    ensures NamesDistinct(merged + copies) <==> !ViaTaken(raw, EligibleOwns(OwnProxies(inp)), targets)
  {
    hide AddProxies, ProxyPart, RewriteOwnProxies, DistinctNames, NamedNodes, CopyAt, ViaHas, NamespacedAll, Name;
    var items, es := ProxyPart(inp, NamespacedAll(raw)), EligibleOwns(OwnProxies(inp));
    DistinctProxiesMergeVerbatim(items);
    NamedNodesDistinct(items);
    OwnNamesLaw(inp.ownProxies);
    assert OwnList(OwnProxies(inp));
    forall e: nat, j: nat | e < |es| && j <= |targets|
      ensures NodeNamed(merged, Name(copies[Slot(e, targets, j)])) <==> ViaHas(raw, CopyTail(es[e], targets, j))
    {
      EligibleOwn(OwnProxies(inp), e);
      CopyClash(inp, raw, merged, es[e], targets, j);
    }
    if e: nat, j: nat :| e < |es| && j <= |targets| && ViaHas(raw, CopyTail(es[e], targets, j)) {
      ClashBreaks(merged, copies, Slot(e, targets, j));
    } else {
      forall i, k | 0 <= i < |merged| && 0 <= k < |copies| ensures Name(merged[i]) != Name(copies[k]) {
        assert SlotExists(k, es, targets);
      }
      DistinctAppend(merged, copies);
    }
  }

  /** With names distinct inside each source and inside the operator's file, all served proxies have
      pairwise distinct names exactly when no source called `via` has a proxy named like a copy. */
  lemma BuildProxyNamesDistinct(inp: Input)
    requires ValidTable(inp.rows) && Settled(inp) && NamedApart(inp, Sources(inp)) && PrefixesFree(inp)
    ensures var s := StagesOf(inp, NamespacedAll(Sources(inp)));
            NamesDistinct(Build(inp).proxies) <==>
              !ViaTaken(Sources(inp), EligibleOwns(OwnProxies(inp)), GeneratedNames(s))
  {
    hide StagesOf, Build, Sources, FansOut, ProxyPart, AddProxies, GeneratedNames, NamesDistinct, SourcesDistinct,
         PrefixesFree, ViaTaken, NamespacedAll, IsChain, EligibleOwns, OwnProxies, DistinctNames, ValidTables,
           ValidTable, GroupPart, AddGroups, Upstream;
    var raw, s := Sources(inp), StagesOf(inp, NamespacedAll(Sources(inp)));
    BuildFansOut(inp);
    BuildStarts(inp, NamespacedAll(raw));
    SourcesNamed(inp);
    ProxyPartDistinct(inp, raw);
    ServedNames(inp, raw, s.merged, s.copies, GeneratedNames(s), Build(inp).groups);
  }

  // ----- what is served of the generated groups

  function Cleaned(lists: map<string, seq<string>>, gone: set<string>): (r: map<string, seq<string>>) {
    map k | k in lists :: KeptMembers(lists[k], gone)
  }

  lemma CleanedSiblings(made: seq<Node>, keys: seq<string>, lists: map<string, seq<string>>, prefix: string,
                        lbPrefix: string, gone: set<string>)
    requires SiblingList(made, keys, lists, prefix, lbPrefix)
    ensures SiblingList(CleanGroups(made, gone), keys, Cleaned(lists, gone), prefix, lbPrefix)
  {
    hide IsGroup, Name, Members, CleanGroup, KeptMembers;
    NothingKept(gone);
    forall k | 0 <= k < |keys|
      ensures Siblings(CleanGroups(made, gone), k, keys[k], Lookup(Cleaned(lists, gone), keys[k]), prefix, lbPrefix)
    {
      assert Siblings(made, k, keys[k], Lookup(lists, keys[k]), prefix, lbPrefix);
      CleanGroupLaw(made[2 * k], gone);
      CleanGroupLaw(made[2 * k + 1], gone);
    }
  }

  lemma NothingKept(gone: set<string>)
    ensures KeptMembers([], gone) == []
  {
  }

  /** The generated groups stand at the end, as the passes made them. */
  lemma TailOfAll(s: Stages, selector: string)
    requires StageLaws(s, selector) && !IsTarget(selector)
    ensures |s.selected| <= |s.regions| <= |s.all|
    ensures s.all[|s.selected|..] == s.regions[|s.selected|..] + s.all[|s.regions|..]
  {
    hide IsTarget, Name, AllGroups, FindNamed, PairNames;
    var made := s.regions[|s.selected|..];
    NoPairIsTheSelector(s.regionKeys, REGION, LB_REGION, selector);
    forall i | |s.selected| <= i < |s.regions| ensures s.all[i] == s.regions[i] {
      SiblingAt(made, s.regionKeys, s.regionLists, REGION, LB_REGION, i - |s.selected|);
      PairNamesAt(s.regionKeys, REGION, LB_REGION, i - |s.selected|);
      assert made[i - |s.selected|] == s.regions[i];
    }
  }

  /** From position `n` on `out` holds the generated pairs, each list minus the removed names, and
      nothing else. */
  ghost predicate ServedFrom(s: Stages, out: seq<Node>, gone: set<string>, n: nat) {
    var m := n + 2 * |s.regionKeys|;
    && m <= |out|
    && SiblingList(out[n..m], s.regionKeys, Cleaned(s.regionLists, gone), REGION, LB_REGION)
    && SiblingList(out[m..], s.continentKeys, Cleaned(s.continentLists, gone), CONTINENT, LB_CONTINENT)
  }

  ghost predicate ServesGenerated(s: Stages, out: seq<Node>, gone: set<string>) {
    exists n: nat :: ServedFrom(s, out, gone, n)
  }

  lemma AllFull(made: seq<Node>, keys: seq<string>, lists: map<string, seq<string>>, prefix: string, lbPrefix: string)
    requires SiblingList(made, keys, lists, prefix, lbPrefix)
    requires forall k :: 0 <= k < |keys| ==> Lookup(lists, keys[k]) != []
    ensures forall g :: g in made ==> Members(g) != []
  {
    forall g | g in made ensures Members(g) != [] {
      var i :| 0 <= i < |made| && made[i] == g;
      SiblingAt(made, keys, lists, prefix, lbPrefix, i);
    }
  }

  lemma GeneratedServed(s: Stages, names: seq<string>, selector: string, t: Tables, p: Params, rules: seq<string>,
                        fallback: string)
    requires StagesOk(s, names, selector, t, p) && !IsTarget(selector)
    ensures ServesGenerated(s, PruneGroups(s.all, rules, selector, fallback).groups,
                            ToSet(RemovedNames(s.all, s.all, selector, fallback)))
  {
    hide PruneGroups, RemovedNames, IsTarget, Name, Members, Coded, SiblingList, RegionKeys, RegionMembers, Lookup,
         AllGroups, ByCountry, WithSelector, WithRegions, WithContinents, ContinentMembers, Untargeted, CleanGroups;
    var gone := ToSet(RemovedNames(s.all, s.all, selector, fallback));
    var a, b := s.regions[|s.selected|..], s.all[|s.regions|..];
    TailOfAll(s, selector);
    CountriesAreCoded(t);
    RegionListsNotEmpty(names, ByCountry(t), s.regionKeys, s.regionLists);
    ContinentsFollowRegions(s, names, selector, t, p);
    AllFull(a, s.regionKeys, s.regionLists, REGION, LB_REGION);
    AllFull(b, s.continentKeys, s.continentLists, CONTINENT, LB_CONTINENT);
    var n := PrunedTail(s.all, rules, selector, fallback, |s.selected|);
    CleanAppend(a, b, gone);
    CleanedSiblings(a, s.regionKeys, s.regionLists, REGION, LB_REGION, gone);
    CleanedSiblings(b, s.continentKeys, s.continentLists, CONTINENT, LB_CONTINENT, gone);
    TailSplits(s, PruneGroups(s.all, rules, selector, fallback).groups, gone, n, CleanGroups(a, gone),
               CleanGroups(b, gone));
  }

  lemma TailSplits(s: Stages, out: seq<Node>, gone: set<string>, n: nat, a: seq<Node>, b: seq<Node>)
    requires n <= |out| && out[n..] == a + b
    requires SiblingList(a, s.regionKeys, Cleaned(s.regionLists, gone), REGION, LB_REGION)
    requires SiblingList(b, s.continentKeys, Cleaned(s.continentLists, gone), CONTINENT, LB_CONTINENT)
    ensures ServesGenerated(s, out, gone)
  {
    hide Siblings, Cleaned;
    var m := n + |a|;
    assert out[n..m] == out[n..][..|a|] == a && out[m..] == out[n..][|a|..] == b;
    assert ServedFrom(s, out, gone, n);
  }

  /** The served lists are the generated ones. */
  ghost predicate ServesWhole(s: Stages, gone: set<string>) {
    && (forall k :: 0 <= k < |s.regionKeys| ==>
          KeptMembers(Lookup(s.regionLists, s.regionKeys[k]), gone) == Lookup(s.regionLists, s.regionKeys[k]))
    && (forall k :: 0 <= k < |s.continentKeys| ==>
          KeptMembers(Lookup(s.continentLists, s.continentKeys[k]), gone)
            == Lookup(s.continentLists, s.continentKeys[k]))
  }

  lemma {:induction false} ConcatOfNames(ccs: seq<string>, names: seq<string>, code: Classifier)
    ensures forall x :: x in ConcatBuckets(ccs, names, code) ==> x in names
  {
    hide Bucket;
    if ccs != [] {
      ConcatOfNames(ccs[..|ccs| - 1], names, code);
      BucketWithin(names, Some(ccs[|ccs| - 1]), code);
    }
  }

  /** A list of upstream names is served whole exactly when none of it is removed. */
  ghost predicate WholeList(list: seq<string>, names: seq<string>, gone: set<string>) {
    && (KeptMembers(list, gone) == list <==> forall x :: x in list ==> x !in gone)
    && forall x :: x in list ==> x in names
  }

  lemma WholeExactly(s: Stages, names: seq<string>, selector: string, t: Tables, p: Params, gone: set<string>)
    requires StagesOk(s, names, selector, t, p)
    ensures ServesWhole(s, gone) <==> forall x :: x in names ==> x !in gone
  {
    hide KeptMembers, Bucket, ConcatBuckets, StageLaws, Untargeted, ByCountry, ByContinent, RegionKeys, RegionMembers,
         Coded,
         Countries, SortedKeys, WithSelector, WithRegions, WithContinents, ContinentKeys, ContinentLists;
    var code := ByCountry(t);
    CountriesAreCoded(t);
    ContinentsFollowRegions(s, names, selector, t, p);
    forall k | 0 <= k < |s.regionKeys| ensures WholeList(Lookup(s.regionLists, s.regionKeys[k]), names, gone) {
      KeepsAllExactly(Lookup(s.regionLists, s.regionKeys[k]), gone);
      RegionMembersLaw(names, code, k);
      BucketWithin(names, if s.regionKeys[k] == UNKNOWN then None else Some(s.regionKeys[k]), code);
    }
    forall k | 0 <= k < |s.continentKeys|
      ensures WholeList(Lookup(s.continentLists, s.continentKeys[k]), names, gone)
    {
      KeepsAllExactly(Lookup(s.continentLists, s.continentKeys[k]), gone);
      ConcatOfNames(SortedKeys(Countries(RegionKeys(names, code), s.continentKeys[k], ByContinent(t))), names, code);
    }
    forall x | x in names
      ensures exists k :: 0 <= k < |s.regionKeys| && x in Lookup(s.regionLists, s.regionKeys[k])
    {
      RegionsPartition(names, code, x);
    }
  }

  /** The whole build ends its groups with the generated pairs, class by class and continent by continent,
      each list minus the names of removed groups. All lists are whole if and only if no upstream proxy
      shares its name with a removed group. */
  lemma BuildServesRegions(inp: Input)
    requires Settled(inp) && Regulars(inp, Sources(inp)) && PrefixesFree(inp)
    ensures var cs := NamespacedAll(Sources(inp));
            && ServesGenerated(StagesOf(inp, cs), Build(inp).groups, RemovedBy(inp))
            && (ServesWhole(StagesOf(inp, cs), RemovedBy(inp)) <==> forall x :: x in Upstream(inp, cs) ==>
                                                                      x !in RemovedBy(inp))
  {
    hide StagesOf, Sources, Upstream, Merged, Assemble, StagesOk, PruneGroups, FanoutProxies, IsTarget, ServesGenerated,
         ServesWhole, RemovedNames, Contributors;
    var cs := NamespacedAll(Sources(inp));
    BuildParts(inp, cs);
    BuildStagesOk(inp, Sources(inp), StagesOf(inp, cs));
    GeneratedServed(StagesOf(inp, cs), Upstream(inp, cs), inp.selector, inp.tables, inp.params,
                    Merged(Contributors(inp, cs), inp.fallback).rules, inp.fallback);
    WholeExactly(StagesOf(inp, cs), Upstream(inp, cs), inp.selector, inp.tables, inp.params, RemovedBy(inp));
  }

  // ----- what is served of the selector

  /** The selector's list before pruning: what it was given with the proxies, then the regions, then the
      continents. */
  ghost function SelectorList(s: Stages, selector: string): (r: seq<string>)
    requires FindNamed(s.selected, selector) < |s.selected|
  {
    UnionList(UnionList(Members(s.selected[FindNamed(s.selected, selector)]),
                        PairNames(s.regionKeys, REGION, LB_REGION)),
              PairNames(s.continentKeys, CONTINENT, LB_CONTINENT))
  }

  lemma SelectorListed(s: Stages, names: seq<string>, selector: string, t: Tables, p: Params)
    requires StagesOk(s, names, selector, t, p) && selector != ""
    ensures FindNamed(s.selected, selector) < |s.selected| && FindNamed(s.all, selector) < |s.all|
    ensures Members(s.all[FindNamed(s.all, selector)]) == SelectorList(s, selector)
  {
    hide UnionList, PairNames, SiblingList, Name, Members, EmitPairs, WithSelector, FindNamed, IsGroup, RegionCodesOf,
         RegionListsOf, ContinentMembers, RegionMembers, Untargeted;
    CountriesAreCoded(t);
    WithGeneratedSelector(s.selected, EmitPairs(s.regionKeys, s.regionLists, REGION, LB_REGION, p),
                          PairNames(s.regionKeys, REGION, LB_REGION), selector);
    WithGeneratedSelector(s.regions, EmitPairs(s.continentKeys, s.continentLists, CONTINENT, LB_CONTINENT, p),
                          PairNames(s.continentKeys, CONTINENT, LB_CONTINENT), selector);
  }

  ghost predicate GroupServes(out: seq<Node>, name: string, list: seq<string>) {
    exists k :: 0 <= k < |out| && Name(out[k]) == name && Members(out[k]) == list
  }

  lemma GroupServed(gs: seq<Node>, rules: seq<string>, selector: string, fallback: string, g: Node)
    requires AllGroups(gs) && g in gs && !Doomed(gs, selector, fallback, g)
    ensures GroupServes(PruneGroups(gs, rules, selector, fallback).groups, Name(g),
                        KeptMembers(Members(g), ToSet(RemovedNames(gs, gs, selector, fallback))))
  {
    hide PruneGroups, RemovedNames, Doomed, Name, Members, KeptMembers, Survivors;
    var k := SurvivorAt(gs, rules, selector, fallback, g);
    PruneMembersLaw(gs, rules, selector, fallback, k);
  }

  ghost predicate ServesSelector(s: Stages, names: seq<string>, selector: string, out: seq<Node>, gone: set<string>) {
    && FindNamed(s.selected, selector) < |s.selected|
    && var list := SelectorList(s, selector);
    && (forall x :: x in names ==> x in list) && (forall x :: x in GeneratedNames(s) ==> x in list)
    && GroupServes(out, selector, KeptMembers(list, gone))
    && (KeptMembers(list, gone) == list <==> forall x :: x in list ==> x !in gone)
  }

  lemma SelectorServed(s: Stages, names: seq<string>, selector: string, t: Tables, p: Params, rules: seq<string>,
                       fallback: string)
    requires StagesOk(s, names, selector, t, p) && selector != "" && AllGroups(s.base)
    ensures ServesSelector(s, names, selector, PruneGroups(s.all, rules, selector, fallback).groups,
                           ToSet(RemovedNames(s.all, s.all, selector, fallback)))
  {
    hide StagesOk, PruneGroups, RemovedNames, GroupServes, PairNames, Name, Members, KeptMembers, AllGroups, FindNamed,
         SelectorList, Doomed, GeneratedNames;
    SelectorListed(s, names, selector, t, p);
    SelectorHolds(s, names, selector, t, p);
    SelectorKept(s, names, selector, t, p, fallback);
    GroupServed(s.all, rules, selector, fallback, s.all[FindNamed(s.all, selector)]);
    KeepsAllExactly(SelectorList(s, selector), ToSet(RemovedNames(s.all, s.all, selector, fallback)));
  }

  /** The served selector lists what it was given, the upstream proxies among it, then every region and every
      continent, minus the names of removed groups; it is whole if and only if none of them is one. */
  lemma BuildServesSelector(inp: Input)
    requires Settled(inp) && Regulars(inp, Sources(inp)) && PrefixesFree(inp)
    ensures var cs := NamespacedAll(Sources(inp));
            ServesSelector(StagesOf(inp, cs), Upstream(inp, cs), inp.selector, Build(inp).groups, RemovedBy(inp))
  {
    hide StagesOf, Sources, Upstream, Merged, Assemble, StagesOk, PruneGroups, FanoutProxies, IsTarget, ServesSelector,
         RemovedNames, Contributors, AllGroups;
    var cs := NamespacedAll(Sources(inp));
    BuildParts(inp, cs);
    BuildStagesOk(inp, Sources(inp), StagesOf(inp, cs));
    BaseGroups(inp, Sources(inp), StagesOf(inp, cs));
    SelectorServed(StagesOf(inp, cs), Upstream(inp, cs), inp.selector, inp.tables, inp.params,
                   Merged(Contributors(inp, cs), inp.fallback).rules, inp.fallback);
  }

  lemma BaseGroups(inp: Input, raw: seq<Contribution>, s: Stages)
    requires Regulars(inp, raw) && s == StagesOf(inp, NamespacedAll(raw))
    ensures AllGroups(s.base)
  {
    hide StagesOf, AddGroups, AddProxies, GroupPart, ProxyPart, IsChain, NamespacedAll, Upstream, Emits;
    BuildStarts(inp, NamespacedAll(raw));
    BaseHolds(inp, raw, s);
  }

  lemma SelectorHolds(s: Stages, names: seq<string>, selector: string, t: Tables, p: Params)
    requires StagesOk(s, names, selector, t, p) && selector != "" && AllGroups(s.base)
    ensures FindNamed(s.selected, selector) < |s.selected|
    ensures forall x :: x in names ==> x in SelectorList(s, selector)
    ensures forall x :: x in GeneratedNames(s) ==> x in SelectorList(s, selector)
  {
    hide PairNames, SiblingList, Name, Members, WithSelector, FindNamed, IsGroup, WithRegions, WithContinents,
         Untargeted;
    WithSelectorLaw(s.base, names, selector, EVERYTHING);
  }

  lemma SelectorKept(s: Stages, names: seq<string>, selector: string, t: Tables, p: Params, fallback: string)
    requires StagesOk(s, names, selector, t, p) && selector != ""
    ensures FindNamed(s.all, selector) < |s.all| && AllGroups(s.all)
    ensures !Doomed(s.all, selector, fallback, s.all[FindNamed(s.all, selector)])
    ensures Name(s.all[FindNamed(s.all, selector)]) == selector && s.all[FindNamed(s.all, selector)] in s.all
  {
    hide IsChain, SiblingList, IsGroup, Untargeted, ValidTables, Name, Members;
  }

  // ----- dialers of upstream proxies

  /** Namespacing renames a proxy and nothing else: its dialer reference is not prefixed. */
  lemma DialerKept(p: Node, source: string)
    requires Regular(p)
    ensures GetField(Renamed(p, Prefixer(source)), "dialer-proxy") == GetField(p, "dialer-proxy")
  {
    SetFieldOther(p, "name", Prefixed(source, Name(p)), "dialer-proxy");
  }

  ghost predicate Underscored(ns: seq<Node>) { forall k :: 0 <= k < |ns| ==> '_' in Name(ns[k]) }

  lemma UnderscoreKept(a: string, b: string)
    ensures '_' in Prefixed(a, b) && '_' in OwnName(b) && ('_' in a ==> '_' in a + "@" + b)
  {
    assert Prefixed(a, b)[|a|] == '_' && OwnName(b)[0] == '_';
    assert a <= a + "@" + b;
  }

  lemma {:induction false} MergedUnderscored(items: seq<Item>)
    requires ItemsRegular(items)
             && forall k :: 0 <= k < |items| && Name(items[k].node) != "" ==> '_' in Name(items[k].node)
    ensures Underscored(AddProxies(items).merged)
  {
    hide Name, Regular;
    if items != [] {
      var init, last := items[..|items| - 1], items[|items| - 1];
      assert forall k :: 0 <= k < |init| ==> init[k] == items[k];
      MergedUnderscored(init);
      var name := Name(last.node);
      if name != "" && !last.own && name in AddProxies(init).used { SuffixedName(last.node, last.source); }
    }
  }

  lemma SuffixedName(n: Node, source: string)
    requires Regular(n) && Name(n) != "" && '_' in Name(n)
    ensures '_' in Name(SetName(n, Name(n) + "@" + source))
  {
    SuffixLaw(n, Name(n) + "@" + source);
    UnderscoreKept(Name(n), source);
  }

  lemma ProxiesUnderscored(inp: Input, raw: seq<Contribution>, s: Stages)
    requires Regulars(inp, raw) && StartsFrom(s, inp, raw)
             && s.copies == FanoutProxies(OwnProxies(inp), s.all, inp.selector)
    ensures Underscored(s.merged) && Underscored(s.copies)
  {
    hide AddProxies, ProxyPart, Name, NamespacedAll, CopyAt, Copies, TargetNames, RewriteOwnProxies, Regular;
    var items := ProxyPart(inp, NamespacedAll(raw));
    PartsRegular(inp, raw);
    forall k | 0 <= k < |items| && Name(items[k].node) != "" ensures '_' in Name(items[k].node) {
      ProxyItemUnderscored(inp, raw, k);
    }
    MergedUnderscored(items);
    CopiesUnderscored(OwnProxies(inp), inp.ownProxies, TargetNames(s.all), DefaultSelector(inp.selector));
  }

  lemma ProxyItemUnderscored(inp: Input, raw: seq<Contribution>, k: nat)
    requires Regulars(inp, raw) && k < |ProxyPart(inp, NamespacedAll(raw))|
    requires Name(ProxyPart(inp, NamespacedAll(raw))[k].node) != ""
    ensures '_' in Name(ProxyPart(inp, NamespacedAll(raw))[k].node)
  {
    hide ProxyPart, Name, NamespacedAll, Regulars;
    var n := Name(ProxyPart(inp, NamespacedAll(raw))[k].node);
    MergedNameShape(inp, raw, k);
    if m :| n == OwnName(m) {
      UnderscoreKept("", m);
    } else {
      var i, j :| 0 <= i < |raw| && 0 <= j < |raw[i].proxies| && n == Prefixed(raw[i].name, Name(raw[i].proxies[j]));
      UnderscoreKept(raw[i].name, Name(raw[i].proxies[j]));
    }
  }

  lemma GroupItemUnderscored(inp: Input, raw: seq<Contribution>, k: nat)
    requires Regulars(inp, raw) && k < |GroupPart(inp, NamespacedAll(raw))|
    requires Name(GroupPart(inp, NamespacedAll(raw))[k].node) != ""
    ensures '_' in Name(GroupPart(inp, NamespacedAll(raw))[k].node)
  {
    hide GroupPart, Name, Regular, NamespacedAll;
    var item := GroupPart(inp, NamespacedAll(raw))[k];
    GroupPartShape(inp, raw, k);
    if j :| 0 <= j < |inp.ownGroups| && item.node == OwnGroups(inp)[j] {
      MappedAt(inp.ownGroups, OwnPrefixer(), OwnRefPrefixer(OwnNames(inp.ownProxies, inp.ownGroups)), j);
      UnderscoreKept("", Name(inp.ownGroups[j]));
    } else {
      var i, j :| 0 <= i < |raw| && 0 <= j < |raw[i].groups|
          && item.node == RewriteGroups(raw[i].name, raw[i].groups)[j];
      MappedAt(raw[i].groups, Prefixer(raw[i].name), RefPrefixer(raw[i].name), j);
      UnderscoreKept(raw[i].name, Name(raw[i].groups[j]));
    }
  }

  /** Every group but the selector has an underscore in its name. */
  ghost predicate Marked(gs: seq<Node>, selector: string) {
    forall k :: 0 <= k < |gs| ==> Name(gs[k]) == selector || '_' in Name(gs[k])
  }

  lemma SelectedMarked(inp: Input, raw: seq<Contribution>, names: seq<string>, base: seq<Node>)
    requires Regulars(inp, raw) && inp.selector != "" && base == AddGroups(GroupPart(inp, NamespacedAll(raw))).merged
    ensures Marked(WithSelector(base, names, inp.selector), inp.selector)
  {
    hide AddGroups, GroupPart, WithSelector, Name, Regular, NamespacedAll, Members, FindNamed;
    var items := GroupPart(inp, NamespacedAll(raw));
    var r := WithSelector(base, names, inp.selector);
    PartsRegular(inp, raw);
    MergedGroupsCover(items, EVERYTHING);
    WithSelectorLaw(base, names, inp.selector, EVERYTHING);
    forall i | 0 <= i < |r| ensures Name(r[i]) == inp.selector || '_' in Name(r[i]) {
      if i < |base| {
        assert Names(r)[..|base|][i] == Name(base[i]);
        assert Name(base[i]) in AddGroups(items).index;
        assert ItemNamed(items, Name(base[i]));
        var k :| 0 <= k < |items| && Name(items[k].node) == Name(base[i]);
        GroupItemUnderscored(inp, raw, k);
      }
    }
  }

  lemma ExtensionMarked(gs: seq<Node>, r: seq<Node>, selector: string, keys: seq<string>,
                        members: map<string, seq<string>>, prefix: string, lbPrefix: string)
    requires Extended(gs, r, selector) && SiblingList(r[|gs|..], keys, members, prefix, lbPrefix)
    requires Marked(gs, selector) && TargetPrefixes(prefix, lbPrefix)
    ensures Marked(r, selector)
  {
    hide SiblingList, Name, PairNames, IsTarget;
    forall i | 0 <= i < |r| ensures Name(r[i]) == selector || '_' in Name(r[i]) {
      if i >= |gs| {
        SiblingAt(r[|gs|..], keys, members, prefix, lbPrefix, i - |gs|);
        assert prefix[0] == '_' && lbPrefix[0] == '_';
      }
    }
  }

  /** A dialer reference without an underscore, as upstream proxies keep it, resolves in what the
      whole build serves exactly when it is a built-in or the selector: nothing else that is served
      has a name without one. */
  lemma PlainNameResolves(inp: Input, d: string)
    requires Settled(inp) && Regulars(inp, Sources(inp)) && '_' !in d
    ensures Resolves(d, Build(inp).proxies, Build(inp).groups) <==> d in BUILTINS || d == inp.selector
  {
    hide StagesOf, Sources, Merged, PruneGroups, Name, Regulars, StageLaws, NamespacedAll, Doomed, NodeNamed,
         Contributors, Assemble, ValidTables;
    var cs := NamespacedAll(Sources(inp));
    var s := StagesOf(inp, cs);
    BuildParts(inp, cs);
    StagesMarked(inp, Sources(inp), s);
    BuildResolvesExactly(inp, d);
    NoPlainName(s, inp.selector, d);
    SelectorSurvives(s, Merged(Contributors(inp, cs), inp.fallback).rules, inp.selector, inp.fallback);
  }

  lemma StagesMarked(inp: Input, raw: seq<Contribution>, s: Stages)
    requires Settled(inp) && Regulars(inp, raw) && s == StagesOf(inp, NamespacedAll(raw))
    ensures StageLaws(s, inp.selector) && Marked(s.all, inp.selector) && Underscored(s.merged) && Underscored(s.copies)
  {
    hide StagesOf, Regulars, StageLaws, Marked, Underscored, Assemble, AddGroups, AddProxies, GroupPart, ProxyPart,
         Upstream, WithSelector, WithRegions, WithContinents, NamespacedAll, FanoutProxies, OwnProxies, ContinentKeys,
           ContinentLists, RegionKeys, RegionMembers, PruneGroups, Merged, Contributors, AllGroups, ValidTables;
    BuildParts(inp, NamespacedAll(raw));
    BuildStarts(inp, NamespacedAll(raw));
    ProxiesUnderscored(inp, raw, s);
    BuildGroupsAreGroups(inp, raw, s);
    SelectedMarked(inp, raw, Upstream(inp, NamespacedAll(raw)), s.base);
    AllMarked(s, inp.selector);
  }

  /** The dialer of an upstream proxy is served as the source wrote it. One without an underscore,
      whatever it named inside the source, resolves only as a built-in or the selector. */
  lemma DialerResolves(inp: Input, i: nat, j: nat)
    requires Settled(inp) && Regulars(inp, Sources(inp)) && i < |Sources(inp)| && j < |Sources(inp)[i].proxies|
    ensures var c := Sources(inp)[i];
            var d := GetField(RewriteProxies(c.name, c.proxies)[j], "dialer-proxy");
            && d == GetField(c.proxies[j], "dialer-proxy")
            && ('_' !in d ==>
                (Resolves(d, Build(inp).proxies, Build(inp).groups) <==> d in BUILTINS || d == inp.selector))
  {
    hide Build, Sources, GetField, Resolves, Regular;
    var c := Sources(inp)[i];
    assert SourceRegular(c);
    DialerKept(c.proxies[j], c.name);
    var d := GetField(c.proxies[j], "dialer-proxy");
    if '_' !in d { PlainNameResolves(inp, d); }
  }

  lemma NoPlainName(s: Stages, selector: string, d: string)
    requires Underscored(s.merged) && Underscored(s.copies) && Marked(s.all, selector) && '_' !in d
    ensures !NodeNamed(s.merged + s.copies, d) && forall g :: g in s.all && Name(g) == d ==> d == selector
  {
    hide Name;
  }

  lemma AllMarked(s: Stages, selector: string)
    requires StageLaws(s, selector) && Marked(s.selected, selector)
    ensures Marked(s.all, selector)
  {
    hide SiblingList, Extended, Marked, Names, AllGroups, FindNamed, TargetPrefixes;
    BothPrefixPairs();
    ExtensionMarked(s.selected, s.regions, selector, s.regionKeys, s.regionLists, REGION, LB_REGION);
    ExtensionMarked(s.regions, s.all, selector, s.continentKeys, s.continentLists, CONTINENT, LB_CONTINENT);
  }

  lemma BothPrefixPairs()
    ensures TargetPrefixes(REGION, LB_REGION) && TargetPrefixes(CONTINENT, LB_CONTINENT)
  {
  }

  lemma CopiesUnderscored(own: seq<Node>, file: seq<Node>, targets: seq<string>, selector: string)
    requires own == RewriteOwnProxies(file) && AllRegular(file)
    ensures Underscored(Copies(own, targets, selector))
  {
    var es, cs := EligibleOwns(own), Copies(own, targets, selector);
    hide CopyAt, Copies, Name, Renamed;
    CopiesLaw(own, targets, selector);
    EligibleFrom(own);
    forall k | 0 <= k < |cs| ensures '_' in Name(cs[k]) {
      assert SlotExists(k, es, targets);
      var e: nat, j: nat :| e < |es| && j <= |targets| && k == Slot(e, targets, j);
      var i :| 0 <= i < |own| && own[i] == es[e];
      RenamedAt(file, OwnPrefixer(), i);
      assert Paired(es[e]);
      CopyReadsAsVia(es[e], targets, selector, j);
      UnderscoreKept("via", TagAt(targets, j) + "__" + StripUnderscore(Name(es[e])));
    }
  }

  lemma {:induction false} EligibleFrom(owns: seq<Node>)
    ensures forall e: nat :: e < |EligibleOwns(owns)| ==> EligibleOwns(owns)[e] in owns
  {
    if owns != [] { EligibleFrom(owns[..|owns| - 1]); }
  }

  // ----- a build in which they coincide

  /** A proxy with nothing but a name. */
  function Bare(name: string): (n: Node) { Node(Mapping, "!!map", "", "", [StrNode("name"), StrNode(name)]) }

  lemma BareLaw(name: string)
    ensures Regular(Bare(name)) && Name(Bare(name)) == name && (name != "" ==> Eligible(Bare(name)))
    ensures Renamed(Bare(name), OwnPrefixer()) == if name == "" then Bare("") else Bare(OwnName(name))
  {
    var c := Bare(name).content;
    assert FindKey(c, "name", 0) == 0 && FindScalar(c, "name", 0) == 0 && FindScalar(c, "dialer-proxy", 0) == |c|;
    assert name != "" ==> c[1 := c[1].(value := OwnName(name), tag := "!!str")] == Bare(OwnName(name)).content;
  }

  /** One enabled source called `via` with one proxy, and one own proxy. */
  function ViaInput(params: Params): (inp: Input) {
    Input([Row("via", 1, true, 0, 0)],
          map["via" := Node(Mapping, "!!map", "", "",
                            [StrNode("proxies"), Node(Sequence, "!!seq", "", "", [Bare("AUTO__x")])])],
          [Bare("x")], [], [], "Proxies", "DIRECT", Tables([], [], map[]), params)
  }

  lemma OneRowSorts(row: Row)
    requires row.enable
    ensures SortedRows([row]) == [row]
  {
    HigherPriorityIsStrictWeak();
    StableSortIsStable([row], HigherPriority);
    assert [row][..0] == [] && EnabledRows([row]) == [row];
    assert StableSort([row], HigherPriority)[0] in StableSort([row], HigherPriority);
  }

  lemma ViaSource(params: Params)
    ensures Sources(ViaInput(params)) == [Contribution("via", 1, [Bare("AUTO__x")], [], [], None)]
  {
    var inp := ViaInput(params);
    var row, doc := inp.rows[0], inp.docs["via"];
    OneRowSorts(row);
    assert [row][..0] == [];
    var c := doc.content;
    assert FindKind(c, "proxies", Sequence, 0) == Some(c[1]) && FindKind(c, "proxy-groups", Sequence, 0) == None;
    assert FindKind(c, "rules", Sequence, 0) == None && FindKind(c, "rule-providers", Mapping, 0) == None;
    assert ReadSource(row, doc) == Contribution("via", 1, [Bare("AUTO__x")], [], [], None);
  }

  lemma ViaOwn(params: Params)
    ensures OwnProxies(ViaInput(params)) == [Bare("_x")] && EligibleOwns([Bare("_x")]) == [Bare("_x")]
  {
    hide Bare, Renamed, Eligible;
    BareLaw("x");
    BareLaw("_x");
    assert OwnName("x") == "_x" && [Bare("_x")][..0] == [];
  }

  lemma ViaIsTaken(raw: seq<Contribution>, targets: seq<string>)
    requires |raw| == 1 && raw[0].name == "via" && raw[0].proxies == [Bare("AUTO__x")]
    ensures ViaTaken(raw, [Bare("_x")], targets)
  {
    hide Bare, Name, Regular, Eligible, Renamed;
    BareLaw("_x");
    BareLaw("AUTO__x");
    assert "_x"[1..] == "x" && "AUTO" + "__" + "x" == "AUTO__x";
    assert CopyTail([Bare("_x")][0], targets, 0) == "AUTO__x";
    assert Name(raw[0].proxies[0]) == "AUTO__x";
  }

  lemma ViaApart(inp: Input, raw: seq<Contribution>)
    requires inp.ownProxies == [Bare("x")] && inp.ownGroups == []
    requires raw == [Contribution("via", 1, [Bare("AUTO__x")], [], [], None)]
    ensures NamedApart(inp, raw)
  {
    hide Bare, Name, Eligible, Renamed, Regular;
    BareLaw("x");
    BareLaw("AUTO__x");
    assert SourceRegular(raw[0]);
  }

  /** The loader accepts a source called `via`, and here two served proxies have the same name. */
  lemma ViaCanCollide(params: Params)
    ensures ValidTable(ViaInput(params).rows) && !NamesDistinct(Build(ViaInput(params)).proxies)
  {
    hide Build, StagesOf, Sources, NamesDistinct, GeneratedNames, Bare, ViaTaken, EligibleOwns, OwnProxies,
         NamedApart, NamespacedAll;
    var inp := ViaInput(params);
    ViaSource(params);
    ViaOwn(params);
    ViaApart(inp, Sources(inp));
    BuildProxyNamesDistinct(inp);
    ViaIsTaken(Sources(inp), GeneratedNames(StagesOf(inp, NamespacedAll(Sources(inp)))));
  }
}
