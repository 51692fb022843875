/** Further guarantees of the whole build: routing, rule-providers, and names without collisions. */
module BuildLaws {
  import opened Text
  import opened Sorting
  import opened Yaml
  import opened RuleLine
  import opened Subscriptions
  import opened Namespace
  import opened MergeNodes
  import opened RuleMerge
  import opened RuleProviders
  import opened Prune
  import opened Pipeline

  // ----- routing

  /** The groups the build removes. */
  ghost function RemovedBy(inp: Input): (r: set<string>) {
    var s := StagesOf(inp, NamespacedAll(Sources(inp)));
    ToSet(RemovedNames(s.all, s.all, inp.selector, inp.fallback))
  }

  ghost function ContributorsOf(inp: Input): (r: seq<Contributor>) { Contributors(inp, NamespacedAll(Sources(inp))) }

  lemma ServedRules(inp: Input)
    ensures Build(inp).rules.rules == PruneRules(Merged(ContributorsOf(inp), inp.fallback).rules, RemovedBy(inp),
                                                 inp.fallback)
    ensures Aligned(Build(inp).rules)
    ensures Build(inp).rules.priorities == Merged(ContributorsOf(inp), inp.fallback).priorities
    ensures Build(inp).rules.contributors == Merged(ContributorsOf(inp), inp.fallback).contributors
  {
    hide StagesOf, PruneRules, RemovedNames, Survivors, Sources, MergedProviders, AddProxies, AddGroups,
         ProviderNodes, Contributors, NamespacedAll;
    var cs := NamespacedAll(Sources(inp));
    PruneUniform(StagesOf(inp, cs).all, Merged(Contributors(inp, cs), inp.fallback).rules, inp.selector, inp.fallback);
  }

  /** Traffic through the served rule list goes where layered lookup sends it: to the first match
      of the least (priority, name) contributor that matches, or to the fallback if that target
      was pruned. */
  lemma BuildRoutesLayered(inp: Input, hit: string -> bool, i: nat)
    requires TargetName(inp.fallback) && Matcher(hit) && Decides(ContributorsOf(inp), hit, i)
    ensures var rule := FirstHit(ContributorsOf(inp)[i].rules, hit).value;
            var served := FirstHit(Build(inp).rules.rules, hit);
            && served.Some? && Target(rule).Some?
            && Target(served.value) == Some(PruneTarget(Target(rule).value, RemovedBy(inp), inp.fallback))
  {
    hide Build, RemovedBy, Merged, PruneRules, Sources;
    ServedRules(inp);
    RoutingIsLayered(ContributorsOf(inp), inp.fallback, RemovedBy(inp), hit, i);
  }

  // ----- routing from the rules as the source wrote them

  /** How traffic meets a source's own rule: as its namespaced form. */
  function RawHit(source: string, hit: string -> bool): (raw: string -> bool) {
    (r: string) => hit(NamespacedRule(r, source))
  }

  /** A well-formed rule that is no RULE-SET rule meets it as it stands. */
  lemma RawHitIsHit(source: string, hit: string -> bool, rule: string)
    requires CommaFree(source) && Matcher(hit) && WellFormed(rule) && Fields(rule)[0] != "RULE-SET"
    ensures RawHit(source, hit)(rule) == hit(rule)
  {
    NamespacedTarget(rule, source);
  }

  /** The source's rules that are backed once namespaced, as it wrote them. */
  function BackedRaw(rules: seq<string>, source: string, keys: set<string>): (r: seq<string>) {
    if rules == [] then [] else
      var rule := rules[|rules| - 1];
      BackedRaw(rules[..|rules| - 1], source, keys)
        + (if Backed(NamespacedRule(rule, source), keys) then [rule] else [])
  }

  /** What a source contributes, as it wrote it: its backed rules but the last. */
  function RawPart(c: Contribution): (r: seq<string>) {
    var kept := BackedRaw(c.rules, c.name, ProviderKeys(Namespaced(c).providers));
    if kept == [] then [] else kept[..|kept| - 1]
  }

  lemma {:induction false} BackedIsRewritten(rules: seq<string>, source: string, keys: set<string>)
    ensures BackedRules(RewriteRules(source, rules), keys) == RewriteRules(source, BackedRaw(rules, source, keys))
  {
    hide NamespacedRule, Backed;
    if rules != [] {
      BackedIsRewritten(rules[..|rules| - 1], source, keys);
      var all := RewriteRules(source, rules);
      assert all[..|all| - 1] == RewriteRules(source, rules[..|rules| - 1]);
    }
  }

  lemma {:induction false} FirstHitOfRewritten(rules: seq<string>, source: string, hit: string -> bool)
    ensures var raw := FirstHit(rules, RawHit(source, hit));
            FirstHit(RewriteRules(source, rules), hit) ==
            if raw.Some? then Some(NamespacedRule(raw.value, source)) else None
  {
    hide NamespacedRule;
    if rules != [] {
      FirstHitOfRewritten(rules[1..], source, hit);
      assert RewriteRules(source, rules)[1..] == RewriteRules(source, rules[1..]);
    }
  }

  lemma PartIsRewritten(c: Contribution)
    requires |Namespaced(c).rules| > 1
    ensures Namespaced(c).rules[..|Namespaced(c).rules| - 1] == RewriteRules(c.name, RawPart(c))
  {
    BackedIsRewritten(c.rules, c.name, ProviderKeys(Namespaced(c).providers));
  }

  lemma {:induction false} UpstreamPartsFrom(cs: seq<Contribution>, i: nat)
    requires i < |UpstreamParts(cs)|
    ensures exists j :: 0 <= j < |cs| && |cs[j].rules| > 1 && UpstreamParts(cs)[i].name == cs[j].name
              && UpstreamParts(cs)[i].rules == cs[j].rules[..|cs[j].rules| - 1]
  {
    var init := cs[..|cs| - 1];
    if i < |UpstreamParts(init)| {
      UpstreamPartsFrom(init, i);
      var j :| 0 <= j < |init| && |init[j].rules| > 1 && UpstreamParts(init)[i].name == init[j].name
            && UpstreamParts(init)[i].rules == init[j].rules[..|init[j].rules| - 1];
      assert cs[j] == init[j];
    }
  }

  /** The served rule sends traffic where the source's own first match does, under its prefix, or to
      the fallback if that target was pruned. */
  ghost predicate SentAsWritten(c: Contribution, hit: string -> bool, served: Option<string>, removed: set<string>,
                                fallback: string)
  {
    var raw := FirstHit(RawPart(c), RawHit(c.name, hit));
    && raw.Some? && served.Some?
    && (WellFormed(raw.value) ==>
        Target(served.value) == Some(PruneTarget(PrefixedRef(c.name, Target(raw.value).value), removed, fallback)))
  }

  /** Traffic decided by an upstream contributor goes where its source's own first match, in the rules
      as the source wrote them, sends it. */
  lemma BuildRoutesRaw(inp: Input, hit: string -> bool, i: nat)
    requires ValidTable(inp.rows) && TargetName(inp.fallback) && Matcher(hit) && Decides(ContributorsOf(inp), hit, i)
    requires i < |UpstreamParts(NamespacedAll(Sources(inp)))|
    ensures exists j :: 0 <= j < |Sources(inp)| && Sources(inp)[j].name == ContributorsOf(inp)[i].name
              && SentAsWritten(Sources(inp)[j], hit, FirstHit(Build(inp).rules.rules, hit), RemovedBy(inp),
                               inp.fallback)
  {
    hide Build, RemovedBy, Namespaced, Sources, UpstreamParts, SentAsWritten, Decides, FirstHit;
    var cs := NamespacedAll(Sources(inp));
    SourcesNamed(inp);
    UpstreamPartsFrom(cs, i);
    var j :| 0 <= j < |cs| && |cs[j].rules| > 1 && UpstreamParts(cs)[i].name == cs[j].name
          && UpstreamParts(cs)[i].rules == cs[j].rules[..|cs[j].rules| - 1];
    var c := Sources(inp)[j];
    assert cs[j] == Namespaced(c) && ContributorsOf(inp)[i] == UpstreamParts(cs)[i];
    NamespacedName(c);
    LowerNameHasNoUnderscore(c.name, "");
    SourceRoutesRaw(inp, hit, i, c);
  }

  lemma SourceRoutesRaw(inp: Input, hit: string -> bool, i: nat, c: Contribution)
    requires TargetName(inp.fallback) && Matcher(hit) && Decides(ContributorsOf(inp), hit, i) && CommaFree(c.name)
    requires |Namespaced(c).rules| > 1
             && ContributorsOf(inp)[i].rules == Namespaced(c).rules[..|Namespaced(c).rules| - 1]
    ensures SentAsWritten(c, hit, FirstHit(Build(inp).rules.rules, hit), RemovedBy(inp), inp.fallback)
  {
    hide Build, RemovedBy, Namespaced, Sources, NamespacedRule, RawPart, ContributorsOf, WellFormed, Target,
         PrefixedRef;
    BuildRoutesLayered(inp, hit, i);
    PartIsRewritten(c);
    FirstHitOfRewritten(RawPart(c), c.name, hit);
    var raw := FirstHit(RawPart(c), RawHit(c.name, hit));
    if WellFormed(raw.value) { NamespacedTarget(raw.value, c.name); }
  }

  /** Traffic no contributor matches goes to the fallback. */
  lemma BuildRoutesUnmatched(inp: Input, hit: string -> bool)
    requires TargetName(inp.fallback) && Matcher(hit)
    requires forall i: nat :: !Decides(ContributorsOf(inp), hit, i)
    ensures var served := FirstHit(Build(inp).rules.rules, hit);
            served.Some? && Target(served.value) == Some(inp.fallback)
  {
    hide Build, RemovedBy, Merged, PruneRules, Sources;
    ServedRules(inp);
    UnmatchedGoesToFallback(ContributorsOf(inp), inp.fallback, RemovedBy(inp), hit);
  }

  // ----- rule-providers

  lemma {:induction false} EmitContains(cs: seq<Contributor>, i: nat, rule: string)
    requires i < |cs| && rule in cs[i].rules
    ensures rule in EmitAll(cs).rules
  {
    if i < |cs| - 1 { EmitContains(cs[..|cs| - 1], i, rule); }
  }

  lemma MergedContains(cs: seq<Contributor>, fallback: string, c: Contributor, rule: string)
    requires c in cs && rule in c.rules
    ensures rule in Merged(cs, fallback).rules
  {
    EarlierIsStrictWeak();
    StableSortIsStable(cs, Earlier);
    var sorted := StableSort(cs, Earlier);
    var i :| 0 <= i < |sorted| && sorted[i] == c;
    EmitContains(sorted, i, rule);
  }

  lemma {:induction false} UpstreamPartsContain(cs: seq<Contribution>, i: nat)
    requires i < |cs| && |cs[i].rules| > 1
    ensures Contributor(cs[i].name, cs[i].priority, cs[i].rules[..|cs[i].rules| - 1]) in UpstreamParts(cs)
  {
    if i < |cs| - 1 { UpstreamPartsContain(cs[..|cs| - 1], i); }
  }

  lemma {:induction false} ProviderNodesContain(cs: seq<Contribution>, i: nat)
    requires i < |cs| && cs[i].providers.Some?
    ensures cs[i].providers.value in ProviderNodes(cs)
  {
    if i < |cs| - 1 { ProviderNodesContain(cs[..|cs| - 1], i); }
  }

  /** A rule that source `i` contributes to the merged list: all but its last. */
  ghost predicate Contributes(c: Contribution, rule: string) {
    |c.rules| > 1 && rule in c.rules[..|c.rules| - 1]
  }

  /** Every emitted provider is named by a served RULE-SET rule. */
  lemma EmittedProvidersReferenced(inp: Input, key: string)
    requires Emitted(Build(inp).providers, key)
    ensures exists k :: 0 <= k < |Build(inp).rules.rules| && Provider(Build(inp).rules.rules[k]) == Some(key)
  {
    hide Build, Referenced, MergedProviders, Sources;
    ServedProviders(inp);
    var rules := Build(inp).rules.rules;
    EmittedLaw(ProviderNodes(NamespacedAll(Sources(inp))), Referenced(rules), key);
    ReferencedLaw(rules, key);
  }

  lemma PrunedContains(merged: seq<string>, rule: string, removed: set<string>, fallback: string)
    requires rule in merged
    ensures PruneRule(rule, removed, fallback) in PruneRules(merged, removed, fallback)
  {
    var k :| 0 <= k < |merged| && merged[k] == rule;
    assert PruneRules(merged, removed, fallback)[k] == PruneRule(rule, removed, fallback);
  }

  lemma ContributedIsServed(cs: seq<Contribution>, customs: seq<Contributor>, fallback: string, removed: set<string>,
                            i: nat, rule: string)
    requires i < |cs| && Contributes(cs[i], rule)
    ensures var merged := Merged(UpstreamParts(cs) + CustomParts(customs), fallback);
            PruneRule(rule, removed, fallback) in PruneRules(merged.rules, removed, fallback)
  {
    UpstreamPartsContain(cs, i);
    var all := UpstreamParts(cs) + CustomParts(customs);
    var c := Contributor(cs[i].name, cs[i].priority, cs[i].rules[..|cs[i].rules| - 1]);
    MergedContains(all, fallback, c, rule);
    PrunedContains(Merged(all, fallback).rules, rule, removed, fallback);
  }

  lemma ServedProviders(inp: Input)
    ensures Build(inp).providers == MergedProviders(ProviderNodes(NamespacedAll(Sources(inp))),
                                                    Referenced(Build(inp).rules.rules))
  {
  }

  lemma ContributedIsBacked(c: Contribution, rule: string)
    requires Contributes(Namespaced(c), rule) && Provider(rule).Some?
    ensures Namespaced(c).providers.Some? && Provider(rule).value in ProviderKeys(Namespaced(c).providers)
  {
    var ns := Namespaced(c);
    BackedRulesLaw(RewriteRules(c.name, c.rules), ProviderKeys(ns.providers));
    assert rule in ns.rules;
  }

  /** A backed key among the provider mappings that some rule names is emitted. */
  lemma BackedIsEmitted(cs: seq<Contribution>, i: nat, rules: seq<string>, served: string, key: string)
    requires i < |cs| && cs[i].providers.Some? && key in ProviderKeys(cs[i].providers)
    requires served in rules && Provider(served) == Some(key)
    ensures Emitted(MergedProviders(ProviderNodes(cs), Referenced(rules)), key)
  {
    ProviderNodesContain(cs, i);
    var nodes := ProviderNodes(cs);
    var j :| 0 <= j < |nodes| && nodes[j] == cs[i].providers.value;
    var k :| 0 <= k < |rules| && rules[k] == served;
    ReferencedLaw(rules, key);
    EmittedLaw(nodes, Referenced(rules), key);
  }

  lemma ContributedRuleSetsEmitted(raw: seq<Contribution>, cs: seq<Contribution>, customs: seq<Contributor>,
                                   fallback: string, removed: set<string>, rules: seq<string>, i: nat, rule: string)
    requires TargetName(fallback) && i < |raw| && cs == NamespacedAll(raw)
    requires rules == PruneRules(Merged(UpstreamParts(cs) + CustomParts(customs), fallback).rules, removed, fallback)
    requires Contributes(cs[i], rule) && RuleSetWithTarget(rule)
    ensures var served := PruneRule(rule, removed, fallback);
            && served in rules && Provider(served) == Provider(rule)
            && Emitted(MergedProviders(ProviderNodes(cs), Referenced(rules)), Provider(served).value)
  {
    ContributedIsServed(cs, customs, fallback, removed, i, rule);
    PruneKeepsProvider(rule, removed, fallback);
    ContributedIsBacked(raw[i], rule);
    BackedIsEmitted(cs, i, rules, PruneRule(rule, removed, fallback), Provider(rule).value);
  }

  /** Every RULE-SET rule an upstream source contributes is served naming an emitted provider. */
  lemma RuleSetsNameEmittedProviders(inp: Input, i: nat, rule: string)
    requires TargetName(inp.fallback) && i < |Sources(inp)|
    requires Contributes(Namespaced(Sources(inp)[i]), rule) && RuleSetWithTarget(rule)
    ensures var served := PruneRule(rule, RemovedBy(inp), inp.fallback);
            && served in Build(inp).rules.rules
            && Provider(served) == Provider(rule)
            && Emitted(Build(inp).providers, Provider(served).value)
  {
    hide Build, RemovedBy, Merged, MergedProviders, Referenced, PruneRule, PruneRules, Sources, Emitted;
    ServedRules(inp);
    ServedProviders(inp);
    ContributedRuleSetsEmitted(Sources(inp), NamespacedAll(Sources(inp)), inp.customs, inp.fallback, RemovedBy(inp),
                               Build(inp).rules.rules, i, rule);
  }

  /** Some source defines a provider under this namespaced key. */
  ghost predicate ProviderDefined(cs: seq<Contribution>, key: string) {
    exists i :: 0 <= i < |cs| && key in ProviderKeys(cs[i].providers)
  }

  lemma ProviderDefinedStep(init: seq<Contribution>, last: Contribution, key: string)
    ensures ProviderDefined(init + [last], key) <==> ProviderDefined(init, key) || key in ProviderKeys(last.providers)
  {
    hide ProviderKeys;
    var cs := init + [last];
    assert cs[|init|] == last && forall i :: 0 <= i < |init| ==> cs[i] == init[i];
  }

  ghost predicate NodesDefine(ps: seq<Node>, key: string) {
    exists i :: 0 <= i < |ps| && key in ProviderKeys(Some(ps[i]))
  }

  lemma NodesDefineStep(init: seq<Node>, last: Node, key: string)
    ensures NodesDefine(init + [last], key) <==> NodesDefine(init, key) || key in ProviderKeys(Some(last))
  {
    hide ProviderKeys;
    var ps := init + [last];
    assert ps[|init|] == last && forall i :: 0 <= i < |init| ==> ps[i] == init[i];
  }

  lemma {:induction false} ProviderNodesDefine(cs: seq<Contribution>, key: string)
    ensures NodesDefine(ProviderNodes(cs), key) <==> ProviderDefined(cs, key)
  {
    hide ProviderKeys, NodesDefine, ProviderDefined;
    if cs != [] {
      var init, last := cs[..|cs| - 1], cs[|cs| - 1];
      assert cs == init + [last];
      ProviderNodesDefine(init, key);
      ProviderDefinedStep(init, last, key);
      NoKeys();
      if last.providers.Some? {
        assert ProviderNodes(cs) == ProviderNodes(init) + [last.providers.value];
        NodesDefineStep(ProviderNodes(init), last.providers.value, key);
        assert last.providers == Some(last.providers.value);
      } else {
        assert last.providers == None && ProviderNodes(cs) == ProviderNodes(init);
      }
    } else {
      NobodyDefines(key);
    }
  }

  lemma NobodyDefines(key: string)
    ensures !NodesDefine([], key) && !ProviderDefined([], key)
  {
  }

  lemma NoKeys()
    ensures ProviderKeys(None) == {}
  {
  }

  /** Exactly, for every served RULE-SET rule, the operator's included: the provider it names is emitted
      if and only if some source defines it. */
  lemma RuleSetResolvesExactly(inp: Input, rule: string)
    requires rule in Build(inp).rules.rules && Provider(rule).Some?
    ensures Emitted(Build(inp).providers, Provider(rule).value) <==>
            ProviderDefined(NamespacedAll(Sources(inp)), Provider(rule).value)
  {
    hide Build, Sources, MergedProviders, Referenced, Emitted, ProviderKeys, Provider, NamespacedAll;
    var cs, rules := NamespacedAll(Sources(inp)), Build(inp).rules.rules;
    ServedProviders(inp);
    ReferencedLaw(rules, Provider(rule).value);
    EmittedLaw(ProviderNodes(cs), Referenced(rules), Provider(rule).value);
    ProviderNodesDefine(cs, Provider(rule).value);
  }

  /** Some pair of the source's own block became this key and definition. */
  ghost predicate DefinedBy(c: Contribution, k: Node, v: Node) {
    c.providers.Some? && SomePairOf(c.name, c.providers.value.content, k, v)
  }

  lemma {:induction false} ProviderNodesFrom(raw: seq<Contribution>, i: nat)
    requires i < |ProviderNodes(NamespacedAll(raw))|
    ensures exists j :: 0 <= j < |raw| && raw[j].providers.Some?
              && ProviderNodes(NamespacedAll(raw))[i] == NamespacedProviders(raw[j].name, raw[j].providers.value)
  {
    hide NamespacedProviders;
    var cs, init, last := NamespacedAll(raw), raw[..|raw| - 1], |raw| - 1;
    assert cs[..last] == NamespacedAll(init) by { hide Namespaced; }
    if i < |ProviderNodes(NamespacedAll(init))| {
      ProviderNodesFrom(init, i);
      var j :| 0 <= j < |init| && init[j].providers.Some?
               && ProviderNodes(NamespacedAll(init))[i] == NamespacedProviders(init[j].name, init[j].providers.value);
      assert raw[j] == init[j];
    } else {
      assert raw[last].providers.Some?;
    }
  }

  /** Every emitted definition comes from some source's block. */
  lemma EmittedIsDefined(inp: Input, block: Node, p: nat)
    requires Build(inp).providers == Some(block) && 2 * p + 1 < |block.content|
    ensures exists i :: 0 <= i < |Sources(inp)|
              && DefinedBy(Sources(inp)[i], block.content[2 * p], block.content[2 * p + 1])
  {
    hide Build, Sources, Referenced, WantedOf, ProviderPairs, ProviderKey, ProviderValue;
    ServedProviders(inp);
    var raw, wanted := Sources(inp), Referenced(Build(inp).rules.rules);
    var ps, c := ProviderNodes(NamespacedAll(raw)), block.content;
    WantedOfFrom(ps, wanted, p);
    var i: nat, m: nat :| i < |ps| && SamePair(WantedOf(ps, wanted), p, ps[i].content, m);
    ProviderNodesFrom(raw, i);
    var j :| 0 <= j < |raw| && raw[j].providers.Some?
        && ps[i] == NamespacedProviders(raw[j].name, raw[j].providers.value);
    var own := raw[j].providers.value.content;
    ProviderPairsFrom(raw[j].name, own, |own| / 2, m);
    assert DefinedBy(raw[j], c[2 * p], c[2 * p + 1]);
  }

  /** The keys of a source's block contain no slash, and writing a path field writes what is read. */
  ghost predicate PlainBlock(c: Contribution) {
    c.providers.Some? ==> forall m: nat :: 2 * m + 1 < |c.providers.value.content| ==>
      '/' !in c.providers.value.content[2 * m].value && Settable(c.providers.value.content[2 * m + 1], "path")
  }

  /** `k` and `v` are pair `m` of the source's block, namespaced. */
  ghost predicate PairFrom(c: Contribution, m: nat, k: Node, v: Node) {
    c.providers.Some? && PairOf(c.name, c.providers.value.content, m, k, v)
  }

  /** The two definitions are of one source, both have a path, the directories are equal, and so are
      the keys with the extensions of the paths behind them. */
  ghost predicate SameCachePath(c1: Contribution, m1: nat, c2: Contribution, m2: nat)
    requires c1.providers.Some? && 2 * m1 + 1 < |c1.providers.value.content|
    requires c2.providers.Some? && 2 * m2 + 1 < |c2.providers.value.content|
  {
    var b1, b2 := c1.providers.value.content, c2.providers.value.content;
    var o1, o2 := GetField(b1[2 * m1 + 1], "path"), GetField(b2[2 * m2 + 1], "path");
    && c1.name == c2.name && o1 != "" && o2 != "" && DirOf(o1) == DirOf(o2)
    && b1[2 * m1].value + ExtOf(o1) == b2[2 * m2].value + ExtOf(o2)
  }

  lemma DefinedPathsExactly(c1: Contribution, m1: nat, k1: Node, v1: Node,
                            c2: Contribution, m2: nat, k2: Node, v2: Node)
    requires LowerName(c1.name) && LowerName(c2.name) && PlainBlock(c1) && PlainBlock(c2)
    requires PairFrom(c1, m1, k1, v1) && PairFrom(c2, m2, k2, v2)
    ensures GetField(v1, "path") == GetField(v2, "path") != "" <==> SameCachePath(c1, m1, c2, m2)
  {
    hide ProviderValue, DistinctPath, GetField, Settable, DirOf, ExtOf;
    var b1, b2 := c1.providers.value.content, c2.providers.value.content;
    PathOf(c1.name, k1.value, b1[2 * m1 + 1]);
    PathOf(c2.name, k2.value, b2[2 * m2 + 1]);
    NotEmpty(GetField(b1[2 * m1 + 1], "path"), k1.value);
    PathsEqualExactly(c1.name, b1[2 * m1].value, GetField(b1[2 * m1 + 1], "path"),
                      c2.name, b2[2 * m2].value, GetField(b2[2 * m2 + 1], "path"));
  }

  lemma NotEmpty(orig: string, key: string)
    requires key != ""
    ensures DistinctPath(orig, key) != ""
  {
  }

  /** The sources' pairs behind pairs `p` and `q` of an emitted block, which hold equal paths exactly
      when those say so. */
  ghost predicate PathsFollow(raw: seq<Contribution>, c: seq<Node>, p: nat, q: nat) {
    exists i: nat, m: nat, j: nat, n: nat :: PathsAgree(raw, c, p, q, i, m, j, n)
  }

  ghost predicate PathsAgree(raw: seq<Contribution>, c: seq<Node>, p: nat, q: nat, i: nat, m: nat, j: nat, n: nat) {
    && 2 * p + 1 < |c| && 2 * q + 1 < |c| && i < |raw| && j < |raw|
    && PairFrom(raw[i], m, c[2 * p], c[2 * p + 1]) && PairFrom(raw[j], n, c[2 * q], c[2 * q + 1])
    && (GetField(c[2 * p + 1], "path") == GetField(c[2 * q + 1], "path") != "" <==>
        SameCachePath(raw[i], m, raw[j], n))
  }

  lemma DefinedPair(c: Contribution, k: Node, v: Node) returns (m: nat)
    requires DefinedBy(c, k, v)
    ensures PairFrom(c, m, k, v)
  {
    hide PairOf;
    m :| PairOf(c.name, c.providers.value.content, m, k, v);
  }

  /** Exactly when two emitted definitions hold the same path, for keys without a slash: both are of one
      source, their paths are in one directory, and the keys with the extensions are equal. */
  lemma BuildPathsExactly(inp: Input, block: Node, p: nat, q: nat)
    requires ValidTable(inp.rows) && forall i :: 0 <= i < |Sources(inp)| ==> PlainBlock(Sources(inp)[i])
    requires Build(inp).providers == Some(block) && 2 * p + 1 < |block.content| && 2 * q + 1 < |block.content|
    ensures PathsFollow(Sources(inp), block.content, p, q)
  {
    hide Build, Sources, PlainBlock, GetField, PairFrom, SameCachePath, DefinedBy;
    var raw, c := Sources(inp), block.content;
    SourcesNamed(inp);
    EmittedIsDefined(inp, block, p);
    EmittedIsDefined(inp, block, q);
    var i :| 0 <= i < |raw| && DefinedBy(raw[i], c[2 * p], c[2 * p + 1]);
    var j :| 0 <= j < |raw| && DefinedBy(raw[j], c[2 * q], c[2 * q + 1]);
    var m := DefinedPair(raw[i], c[2 * p], c[2 * p + 1]);
    var n := DefinedPair(raw[j], c[2 * q], c[2 * q + 1]);
    DefinedPathsExactly(raw[i], m, c[2 * p], c[2 * p + 1], raw[j], n, c[2 * q], c[2 * q + 1]);
    assert PathsAgree(raw, c, p, q, i, m, j, n);
  }

  /** Pairs `p` and `q` of an emitted block: no path, different paths, or the same source. */
  ghost predicate PathsApart(raw: seq<Contribution>, c: seq<Node>, p: nat, q: nat)
    requires 2 * p + 1 < |c| && 2 * q + 1 < |c|
  {
    || GetField(c[2 * p + 1], "path") == "" || GetField(c[2 * p + 1], "path") != GetField(c[2 * q + 1], "path")
    || exists i :: 0 <= i < |raw| && DefinedBy(raw[i], c[2 * p], c[2 * p + 1])
         && DefinedBy(raw[i], c[2 * q], c[2 * q + 1])
  }

  lemma AgreeingIsApart(raw: seq<Contribution>, c: seq<Node>, p: nat, q: nat, i: nat, m: nat, j: nat, n: nat)
    requires SourcesDistinct(raw) && PathsAgree(raw, c, p, q, i, m, j, n)
    ensures PathsApart(raw, c, p, q)
  {
    hide GetField, ProviderKey, ProviderValue, DirOf, ExtOf;
    assert DefinedBy(raw[i], c[2 * p], c[2 * p + 1]) && DefinedBy(raw[j], c[2 * q], c[2 * q + 1]);
    assert SameCachePath(raw[i], m, raw[j], n) ==> i == j;
  }

  /** In particular two emitted definitions of different sources never hold equal `path` fields. */
  lemma BuildPathsNeverShared(inp: Input, block: Node, p: nat, q: nat)
    requires ValidTable(inp.rows) && forall i :: 0 <= i < |Sources(inp)| ==> PlainBlock(Sources(inp)[i])
    requires Build(inp).providers == Some(block) && 2 * p + 1 < |block.content| && 2 * q + 1 < |block.content|
    ensures PathsApart(Sources(inp), block.content, p, q)
  {
    hide Build, Sources, PlainBlock, GetField, PairOf, PathsAgree;
    SourcesNamed(inp);
    BuildPathsExactly(inp, block, p, q);
    var i: nat, m: nat, j: nat, n: nat :| PathsAgree(Sources(inp), block.content, p, q, i, m, j, n);
    AgreeingIsApart(Sources(inp), block.content, p, q, i, m, j, n);
  }

  // ----- who contributes

  lemma {:induction false} EnabledRowsExactly(rows: seq<Row>, r: Row)
    ensures r in EnabledRows(rows) <==> r in rows && r.enable
  {
    if rows != [] {
      EnabledRowsExactly(rows[..|rows| - 1], r);
      assert rows == rows[..|rows| - 1] + [rows[|rows| - 1]];
    }
  }

  ghost predicate Contributing(cs: seq<Contribution>, name: string) { exists i :: 0 <= i < |cs| && cs[i].name == name }

  lemma ContributingStep(cs: seq<Contribution>, c: Contribution, name: string)
    ensures Contributing(cs + [c], name) <==> Contributing(cs, name) || c.name == name
  {
    var r := cs + [c];
    assert r[|cs|] == c && forall i :: 0 <= i < |cs| ==> r[i] == cs[i];
  }

  lemma {:induction false} ReadSourcesExactly(rows: seq<Row>, docs: map<string, Node>, name: string)
    ensures Contributing(ReadSources(rows, docs), name) <==> name in docs && exists r :: r in rows && r.name == name
  {
    hide Contributing;
    if rows != [] {
      var init, last := rows[..|rows| - 1], rows[|rows| - 1];
      ReadSourcesExactly(init, docs, name);
      assert forall r :: r in rows <==> r in init || r == last by { assert rows == init + [last]; }
      assert last in rows && ReadSources(init, docs) + [] == ReadSources(init, docs);
      if last.name in docs { ContributingStep(ReadSources(init, docs), ReadSource(last, docs[last.name]), name); }
    } else {
      assert !Contributing([], name) by { NobodyContributes(name); }
    }
  }

  lemma NobodyContributes(name: string)
    ensures !Contributing([], name)
  {
  }

  /** Exactly: a name contributes to a build if and only if an enabled row carries it and the cache has a
      payload for it. */
  lemma ContributesExactly(inp: Input, name: string)
    ensures Contributing(Sources(inp), name) <==>
            name in inp.docs && exists r :: r in inp.rows && r.enable && r.name == name
  {
    hide Contributing, EnabledRows, ReadSources;
    HigherPriorityIsStrictWeak();
    StableSortIsStable(EnabledRows(inp.rows), HigherPriority);
    ReadSourcesExactly(SortedRows(inp.rows), inp.docs, name);
    forall r ensures r in SortedRows(inp.rows) <==> r in inp.rows && r.enable { EnabledRowsExactly(inp.rows, r); }
  }

  // ----- names without collisions

  lemma {:induction false} EnabledRowsLaw(rows: seq<Row>)
    requires ValidTable(rows)
    ensures ValidTable(EnabledRows(rows))
    ensures forall r :: r in EnabledRows(rows) ==> r in rows
  {
    if rows != [] {
      var init, last := rows[..|rows| - 1], rows[|rows| - 1];
      EnabledRowsLaw(init);
      assert rows == init + [last];
      assert forall k :: 0 <= k < |EnabledRows(init)| ==> EnabledRows(init)[k] in init;
      assert forall r :: r in init ==> r.name != last.name;
    }
  }

  lemma HigherPriorityIsStrictWeak()
    ensures StrictWeak(HigherPriority)
  {
  }

  lemma SortedRowsLaw(rows: seq<Row>)
    requires ValidTable(rows)
    ensures ValidTable(SortedRows(rows))
  {
    var en := EnabledRows(rows);
    EnabledRowsLaw(rows);
    HigherPriorityIsStrictWeak();
    StableSortIsStable(en, HigherPriority);
    var perm, sorted := SortPerm(en, HigherPriority, |en|), SortedRows(rows);
    forall i, j | 0 <= i < j < |sorted| ensures sorted[i].name != sorted[j].name {
      assert Before(en, HigherPriority, perm[i], perm[j]);
      assert perm[i] < perm[j] || perm[j] < perm[i];
    }
  }

  /** Every source carries the name of some row. */
  ghost predicate FromRows(cs: seq<Contribution>, rows: seq<Row>) {
    forall i :: 0 <= i < |cs| ==> exists k :: 0 <= k < |rows| && rows[k].name == cs[i].name
  }

  ghost predicate SourcesDistinct(cs: seq<Contribution>) {
    && (forall i :: 0 <= i < |cs| ==> LowerName(cs[i].name))
    && forall i, j :: 0 <= i < j < |cs| ==> cs[i].name != cs[j].name
  }

  lemma {:induction false} ReadSourcesLaw(rows: seq<Row>, docs: map<string, Node>)
    requires ValidTable(rows)
    ensures FromRows(ReadSources(rows, docs), rows) && SourcesDistinct(ReadSources(rows, docs))
  {
    if rows != [] {
      var init, last := rows[..|rows| - 1], rows[|rows| - 1];
      ReadSourcesLaw(init, docs);
      var a, cs := ReadSources(init, docs), ReadSources(rows, docs);
      forall i | 0 <= i < |a|
        ensures a[i].name != last.name && exists k :: 0 <= k < |rows| && rows[k].name == a[i].name
      {
        var k :| 0 <= k < |init| && init[k].name == a[i].name;
        assert rows[k] == init[k];
      }
      if last.name in docs {
        assert cs == a + [ReadSource(last, docs[last.name])];
        assert cs[|a|].name == rows[|rows| - 1].name;
      } else {
        assert cs == a;
      }
    }
  }

  /** The loader's table gives every contributing source a distinct lower-case name. */
  lemma SourcesNamed(inp: Input)
    requires ValidTable(inp.rows)
    ensures SourcesDistinct(Sources(inp))
  {
    SortedRowsLaw(inp.rows);
    ReadSourcesLaw(SortedRows(inp.rows), inp.docs);
  }

  /** The named nodes of a list have distinct names. */
  ghost predicate DistinctlyNamed(ns: seq<Node>) {
    forall i, j :: 0 <= i < j < |ns| && Name(ns[i]) != "" ==> Name(ns[i]) != Name(ns[j])
  }

  lemma DistinctConcat(a: seq<Item>, b: seq<Item>)
    requires DistinctNames(a) && DistinctNames(b)
    requires forall x :: ItemNamed(a, x) ==> !ItemNamed(b, x)
    ensures DistinctNames(a + b)
  {
    var r := a + b;
    forall i, j | 0 <= i < j < |r| && Name(r[i].node) != "" ensures Name(r[i].node) != Name(r[j].node) {
      if i < |a| <= j {
        assert a[i] == r[i] && b[j - |a|] == r[j];
        assert ItemNamed(a, Name(r[i].node));
        assert Name(b[j - |a|].node) == "" || ItemNamed(b, Name(b[j - |a|].node));
      } else if i >= |a| {
        assert b[i - |a|] == r[i] && b[j - |a|] == r[j];
      }
    }
  }

  /** All named items carry a prefixed name of one of the listed sources. */
  ghost predicate NamedAfter(items: seq<Item>, sources: seq<string>) {
    forall x :: ItemNamed(items, x) ==> exists i, n :: 0 <= i < |sources| && x == Prefixed(sources[i], n)
  }

  lemma SourceItemsNamed(source: string, ns: seq<Node>, mapped: seq<Node>)
    requires |mapped| == |ns| && DistinctlyNamed(ns)
    requires forall i :: 0 <= i < |ns| ==>
               Name(mapped[i]) == if Name(ns[i]) == "" then "" else Prefixed(source, Name(ns[i]))
    ensures DistinctNames(SourceItems(source, mapped)) && NamedAfter(SourceItems(source, mapped), [source])
  {
    var items := SourceItems(source, mapped);
    forall i, j | 0 <= i < j < |items| && Name(items[i].node) != "" ensures Name(items[i].node) != Name(items[j].node) {
      assert Name(ns[i]) != "" && Name(ns[i]) != Name(ns[j]);
      assert Name(mapped[i])[|source| + 1..] == Name(ns[i]);
      assert Name(mapped[j]) != "" ==> Name(mapped[j])[|source| + 1..] == Name(ns[j]);
    }
    forall x | ItemNamed(items, x) ensures exists i, n :: 0 <= i < |[source]| && x == Prefixed([source][i], n) {
      var k :| 0 <= k < |items| && Name(items[k].node) == x;
      assert x == Prefixed([source][0], Name(ns[k]));
    }
  }

  /** Which of a source's lists is meant. */
  datatype Part = Proxies | Groups

  function PartOf(c: Contribution, part: Part): (r: seq<Node>) { if part == Proxies then c.proxies else c.groups }

  function PartItems(cs: seq<Contribution>, part: Part): (r: seq<Item>) {
    if part == Proxies then ProxyItems(cs) else GroupItems(cs)
  }

  function SourceNames(cs: seq<Contribution>): (r: seq<string>)
    ensures |r| == |cs|
  {
    seq(|cs|, i requires 0 <= i < |cs| => cs[i].name)
  }

  lemma NamespacedPart(c: Contribution, part: Part)
    requires SourceRegular(c) && DistinctlyNamed(PartOf(c, part))
    ensures var items := SourceItems(c.name, PartOf(Namespaced(c), part));
            DistinctNames(items) && NamedAfter(items, [c.name])
  {
    var ns, mapped := PartOf(c, part), PartOf(Namespaced(c), part);
    forall i | 0 <= i < |ns|
      ensures Name(mapped[i]) == if Name(ns[i]) == "" then "" else Prefixed(c.name, Name(ns[i]))
    {
      if part == Proxies { RenamedAt(c.proxies, Prefixer(c.name), i); }
      else { MappedAt(c.groups, Prefixer(c.name), RefPrefixer(c.name), i); }
    }
    SourceItemsNamed(c.name, ns, mapped);
  }

  ghost predicate SourcesNamedApart(raw: seq<Contribution>, part: Part) {
    && SourcesDistinct(raw)
    && forall i :: 0 <= i < |raw| ==> SourceRegular(raw[i]) && DistinctlyNamed(PartOf(raw[i], part))
  }

  lemma PartItemsStep(raw: seq<Contribution>, part: Part)
    requires raw != []
    ensures var init, c := raw[..|raw| - 1], raw[|raw| - 1];
            && PartItems(NamespacedAll(raw), part)
               == PartItems(NamespacedAll(init), part) + SourceItems(c.name, PartOf(Namespaced(c), part))
            && SourceNames(raw) == SourceNames(init) + [c.name]
  {
    hide Namespaced, SourceItems, ProxyItems, GroupItems;
    var init, cs := raw[..|raw| - 1], NamespacedAll(raw);
    assert cs[..|cs| - 1] == NamespacedAll(init);
    assert cs[|cs| - 1] == Namespaced(raw[|raw| - 1]);
    NamespacedName(raw[|raw| - 1]);
    ItemsStep(cs);
  }

  lemma ItemsStep(cs: seq<Contribution>)
    requires cs != []
    ensures ProxyItems(cs) == ProxyItems(cs[..|cs| - 1]) + SourceItems(cs[|cs| - 1].name, cs[|cs| - 1].proxies)
    ensures GroupItems(cs) == GroupItems(cs[..|cs| - 1]) + SourceItems(cs[|cs| - 1].name, cs[|cs| - 1].groups)
  {
  }

  lemma NamespacedName(c: Contribution)
    ensures Namespaced(c).name == c.name
  {
  }

  lemma {:induction false} UpstreamItemsDistinct(raw: seq<Contribution>, part: Part)
    requires SourcesNamedApart(raw, part)
    ensures DistinctNames(PartItems(NamespacedAll(raw), part))
    ensures NamedAfter(PartItems(NamespacedAll(raw), part), SourceNames(raw))
  {
    if raw != [] {
      var init, c := raw[..|raw| - 1], raw[|raw| - 1];
      assert SourcesNamedApart(init, part);
      UpstreamItemsDistinct(init, part);
      NamespacedPart(c, part);
      PartItemsStep(raw, part);
      AppendSource(PartItems(NamespacedAll(init), part), SourceItems(c.name, PartOf(Namespaced(c), part)),
                   SourceNames(init), c.name);
    }
  }

  lemma AppendSource(a: seq<Item>, b: seq<Item>, sources: seq<string>, source: string)
    requires DistinctNames(a) && DistinctNames(b) && NamedAfter(a, sources) && NamedAfter(b, [source])
    requires LowerName(source) && forall i :: 0 <= i < |sources| ==> LowerName(sources[i]) && sources[i] != source
    ensures DistinctNames(a + b) && NamedAfter(a + b, sources + [source])
  {
    var all := sources + [source];
    forall x | ItemNamed(a, x) ensures !ItemNamed(b, x) {
      var i, n :| 0 <= i < |sources| && x == Prefixed(sources[i], n);
      forall m ensures x != Prefixed(source, m) {
        if x == Prefixed(source, m) { PrefixedInjective(sources[i], n, source, m); }
      }
    }
    DistinctConcat(a, b);
    forall x | ItemNamed(a + b, x) ensures exists i, n :: 0 <= i < |all| && x == Prefixed(all[i], n) {
      var k :| 0 <= k < |a + b| && Name((a + b)[k].node) == x;
      if k < |a| {
        assert ItemNamed(a, x);
        var i, n :| 0 <= i < |sources| && x == Prefixed(sources[i], n);
        assert x == Prefixed(all[i], n);
      } else {
        assert Name(b[k - |a|].node) == x;
        assert ItemNamed(b, x);
        var i, n :| 0 <= i < |[source]| && x == Prefixed([source][i], n);
        assert x == Prefixed(all[|sources|], n);
      }
    }
  }

  /** The operator's own list, under its prefix. */
  lemma OwnItemsNamed(ns: seq<Node>, mapped: seq<Node>)
    requires |mapped| == |ns| && DistinctlyNamed(ns)
    requires forall i :: 0 <= i < |ns| ==> Name(mapped[i]) == if Name(ns[i]) == "" then "" else OwnName(Name(ns[i]))
    ensures DistinctNames(OwnItems(mapped))
    ensures forall x :: ItemNamed(OwnItems(mapped), x) ==> exists n :: x == OwnName(n)
  {
    var items := OwnItems(mapped);
    forall i, j | 0 <= i < j < |items| && Name(items[i].node) != "" ensures Name(items[i].node) != Name(items[j].node) {
      assert Name(ns[i]) != "" && Name(ns[i]) != Name(ns[j]);
      assert Name(mapped[i])[1..] == Name(ns[i]);
      assert Name(mapped[j]) != "" ==> Name(mapped[j])[1..] == Name(ns[j]);
    }
    forall x | ItemNamed(items, x) ensures exists n :: x == OwnName(n) {
      var k :| 0 <= k < |items| && Name(items[k].node) == x;
      assert x == OwnName(Name(ns[k]));
    }
  }

  lemma OwnAndUpstreamDistinct(own: seq<Item>, up: seq<Item>, raw: seq<Contribution>)
    requires SourcesDistinct(raw) && DistinctNames(own) && DistinctNames(up) && NamedAfter(up, SourceNames(raw))
    requires forall x :: ItemNamed(own, x) ==> exists n :: x == OwnName(n)
    ensures DistinctNames(own + up)
  {
    forall x | ItemNamed(own, x) ensures !ItemNamed(up, x) {
      var n :| x == OwnName(n);
      forall i, m | 0 <= i < |raw| ensures x != Prefixed(SourceNames(raw)[i], m) {
        NamespacesDisjoint(raw[i].name, m, n);
      }
    }
    DistinctConcat(own, up);
  }

  /** Names are distinct inside each source and inside the operator's file. */
  ghost predicate NamedApart(inp: Input, raw: seq<Contribution>) {
    && Regulars(inp, raw) && DistinctlyNamed(inp.ownProxies) && DistinctlyNamed(inp.ownGroups)
    && forall i :: 0 <= i < |raw| ==> DistinctlyNamed(raw[i].proxies) && DistinctlyNamed(raw[i].groups)
  }

  lemma ProxyPartDistinct(inp: Input, raw: seq<Contribution>)
    requires NamedApart(inp, raw) && SourcesDistinct(raw)
    ensures DistinctNames(ProxyPart(inp, NamespacedAll(raw)))
  {
    var own := OwnProxies(inp);
    forall i | 0 <= i < |own|
      ensures Name(own[i]) == if Name(inp.ownProxies[i]) == "" then "" else OwnName(Name(inp.ownProxies[i]))
    {
      RenamedAt(inp.ownProxies, OwnPrefixer(), i);
    }
    OwnItemsNamed(inp.ownProxies, own);
    UpstreamItemsDistinct(raw, Proxies);
    OwnAndUpstreamDistinct(OwnItems(own), PartItems(NamespacedAll(raw), Proxies), raw);
  }

  lemma GroupPartDistinct(inp: Input, raw: seq<Contribution>)
    requires NamedApart(inp, raw) && SourcesDistinct(raw)
    ensures DistinctNames(GroupPart(inp, NamespacedAll(raw)))
  {
    var own := OwnGroups(inp);
    forall i | 0 <= i < |own|
      ensures Name(own[i]) == if Name(inp.ownGroups[i]) == "" then "" else OwnName(Name(inp.ownGroups[i]))
    {
      MappedAt(inp.ownGroups, OwnPrefixer(), OwnRefPrefixer(OwnNames(inp.ownProxies, inp.ownGroups)), i);
    }
    OwnItemsNamed(inp.ownGroups, own);
    UpstreamItemsDistinct(raw, Groups);
    OwnAndUpstreamDistinct(OwnItems(own), PartItems(NamespacedAll(raw), Groups), raw);
  }

  ghost predicate NamesDistinct(ns: seq<Node>) { forall i, j :: 0 <= i < j < |ns| ==> Name(ns[i]) != Name(ns[j]) }

  lemma {:induction false} NamedNodesDistinct(items: seq<Item>)
    requires DistinctNames(items)
    ensures NamesDistinct(NamedNodes(items))
    ensures forall x :: NodeNamed(NamedNodes(items), x) ==> ItemNamed(items, x)
  {
    hide Name;
    if items != [] {
      var init, n := items[..|items| - 1], items[|items| - 1].node;
      NamedNodesDistinct(init);
      LastNameIsNew(items);
      var a := NamedNodes(init);
      assert forall i :: 0 <= i < |a| ==> NodeNamed(a, Name(a[i]));
      forall x | NodeNamed(NamedNodes(items), x) ensures ItemNamed(items, x) {
        ItemNamedStep(items, x);
        if Name(n) != "" { NodeNamedAppend(a, n, x); }
      }
    }
  }

  /** With names distinct inside each source and inside the operator's file, the merge suffixes,
      loses and reports nothing: the merged proxies are the named entries in order, under pairwise
      distinct names, and no group conflict is recorded. */
  lemma BuildNeverCollides(inp: Input)
    requires ValidTable(inp.rows) && NamedApart(inp, Sources(inp))
    ensures Build(inp).collisions == [] && Build(inp).conflicts == []
    ensures var cs := NamespacedAll(Sources(inp));
            var merged := NamedNodes(ProxyPart(inp, cs));
            && merged <= Build(inp).proxies && NamesDistinct(merged)
            && StagesOf(inp, cs).base == NamedNodes(GroupPart(inp, cs))
  {
    var raw := Sources(inp);
    SourcesNamed(inp);
    ProxyPartDistinct(inp, raw);
    GroupPartDistinct(inp, raw);
    MergeIsVerbatim(inp, NamespacedAll(raw));
  }

  lemma MergeIsVerbatim(inp: Input, cs: seq<Contribution>)
    requires DistinctNames(ProxyPart(inp, cs)) && DistinctNames(GroupPart(inp, cs))
    ensures Assemble(inp, cs).collisions == [] && Assemble(inp, cs).conflicts == []
    ensures NamedNodes(ProxyPart(inp, cs)) <= Assemble(inp, cs).proxies && NamesDistinct(NamedNodes(ProxyPart(inp, cs)))
    ensures StagesOf(inp, cs).base == NamedNodes(GroupPart(inp, cs))
  {
    hide AddProxies, AddGroups, ProxyPart, GroupPart, WithSelector, Merged, PruneGroups, DistinctNames, NamedNodes,
         NamesDistinct, MergedProviders;
    DistinctProxiesMergeVerbatim(ProxyPart(inp, cs));
    DistinctGroupsMergeVerbatim(GroupPart(inp, cs));
    NamedNodesDistinct(ProxyPart(inp, cs));
  }
}
