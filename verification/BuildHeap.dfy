/** `Pipeline.Build` on heap nodes. It has no `modifies` clause: whatever it writes it allocated
    itself, so the cached payloads and the operator's nodes stay as they are. */
module BuildHeap {
  import opened Text
  import opened Sorting
  import opened Yaml
  import opened NodeHeap
  import opened RuleLine
  import opened Subscriptions
  import opened Namespace
  import opened MergeNodes
  import opened MergeHeap
  import opened RuleMerge
  import opened RuleProviders
  import opened RegionTable
  import opened Regions
  import opened GroupHeap
  import opened Fanout
  import opened Prune
  import opened PassHeap
  import opened Pipeline

  // ----- reading

  /** `sortSourcesByPriority` */
  method SortSources(rows: seq<Row>) returns (r: seq<Row>)
    ensures r == SortedRows(rows)
  {
    hide StableSort;
    var enabled: seq<Row> := [];
    for i := 0 to |rows|
      invariant enabled == EnabledRows(rows[..i])
    {
      assert rows[..i + 1][..i] == rows[..i];
      if rows[i].enable { enabled := enabled + [rows[i]]; }
    }
    assert rows[..|rows|] == rows;
    r := StableSort(enabled, HigherPriority);
  }

  /** `findChildSequence` and `findChildMapping` */
  method FindChild(root: YamlNode, key: string, kind: Kind, ghost nodes: set<YamlNode>) returns (r: Option<YamlNode>)
    requires Trees(nodes) && root in nodes
    ensures r.Some? ==> r.value in nodes
    ensures (if r.Some? then Some(r.value.view) else None) == ChildOfKind(root.view, key, kind)
  {
    Member(root, nodes);
    if root.kind != Mapping { return None; }
    var i := 0;
    while i + 1 < |root.content| && !(root.content[i].value == key && root.content[i + 1].kind == kind)
      invariant FindKind(root.view.content, key, kind, 0) == FindKind(root.view.content, key, kind, i)
    {
      Member(root.content[i], nodes);
      Member(root.content[i + 1], nodes);
      i := i + 2;
    }
    if i + 1 >= |root.content| { return None; }
    Member(root.content[i], nodes);
    Member(root.content[i + 1], nodes);
    return Some(root.content[i + 1]);
  }

  /** `docRoot` */
  method FindRoot(doc: YamlNode, ghost nodes: set<YamlNode>) returns (r: YamlNode)
    requires Trees(nodes) && doc in nodes
    ensures r in nodes && r.view == DocRoot(doc.view)
  {
    Member(doc, nodes);
    r := if doc.kind == Document && |doc.content| > 0 then doc.content[0] else doc;
  }

  /** The entries of the list under `key`. */
  method ReadList(root: YamlNode, key: string, ghost nodes: set<YamlNode>) returns (ns: seq<YamlNode>)
    requires Trees(nodes) && root in nodes
    ensures ListStands(ns, SequenceAt(root.view, key), nodes)
  {
    hide Trees, ChildOfKind;
    ns := [];
    var list := FindChild(root, key, Sequence, nodes);
    if list.Some? {
      Member(list.value, nodes);
      ns := list.value.content;
    }
  }

  method ReadOne(row: Row, doc: YamlNode, ghost nodes: set<YamlNode>) returns (s: SourceNodes)
    requires Trees(nodes) && doc in nodes
    ensures SourceStands(s, ReadSource(row, doc.view), nodes)
  {
    hide Trees, SequenceAt, ChildOfKind, DocRoot, ScalarValues;
    var root := FindRoot(doc, nodes);
    var proxies := ReadList(root, "proxies", nodes);
    var groups := ReadList(root, "proxy-groups", nodes);
    var ruleNodes := ReadList(root, "rules", nodes);
    var rules := ReadScalars(ruleNodes, nodes);
    assert Views(ruleNodes) == SequenceAt(root.view, "rules");
    var providers := FindChild(root, "rule-providers", Mapping, nodes);
    s := SourceNodes(row.name, row.priority, proxies, groups, rules, providers);
  }

  /** The cached documents by source name stand for `docs`. */
  ghost predicate Cached(cache: map<string, YamlNode>, docs: map<string, Node>, nodes: set<YamlNode>)
    reads nodes
  {
    cache.Keys == docs.Keys && forall n :: n in cache ==> cache[n] in nodes && cache[n].view == docs[n]
  }

  lemma ReadSourcesSnoc(rows: seq<Row>, i: nat, docs: map<string, Node>)
    requires i < |rows|
    ensures ReadSources(rows[..i + 1], docs)
         == ReadSources(rows[..i], docs)
            + (if rows[i].name in docs then [ReadSource(rows[i], docs[rows[i].name])] else [])
  {
    assert rows[..i + 1][..i] == rows[..i];
  }

  /** The first loop of `Build`: the sources with a cached payload. */
  method ReadAll(rows: seq<Row>, cache: map<string, YamlNode>, ghost docs: map<string, Node>,
                 ghost nodes: set<YamlNode>)
    returns (ss: seq<SourceNodes>)
    requires Trees(nodes) && Cached(cache, docs, nodes)
    ensures Stands(ss, ReadSources(rows, docs), nodes)
  {
    hide Trees, ReadSource, ReadSources, SourceStands;
    ss := [];
    assert ReadSources(rows[..0], docs) == [] by { NoSources(rows, docs); }
    for i := 0 to |rows|
      invariant Stands(ss, ReadSources(rows[..i], docs), nodes)
    {
      ReadSourcesSnoc(rows, i, docs);
      if rows[i].name in cache {
        var s := ReadOne(rows[i], cache[rows[i].name], nodes);
        ss := ss + [s];
      }
    }
    assert rows[..|rows|] == rows;
  }

  lemma NoSources(rows: seq<Row>, docs: map<string, Node>)
    ensures ReadSources(rows[..0], docs) == []
  {
  }

  // ----- namespacing

  /** The namespaced source: new nodes only, the provider mapping a root of the arena. */
  twostate predicate NewSource(a: Arena, new s: SourceNodes, c: Contribution)
    reads a, a.nodes
  {
    && SourceStands(s, c, a.nodes)
    && (s.providers.Some? ==> NewRoot(a, s.providers.value))
  }

  method NamespaceRules(rules: seq<string>, providers: Option<YamlNode>, ghost nodes: set<YamlNode>)
    returns (kept: seq<string>, dropped: seq<string>)
    requires Trees(nodes) && (providers.Some? ==> providers.value in nodes)
    ensures kept == BackedRules(rules, ProviderKeys(if providers.Some? then Some(providers.value.view) else None))
  {
    hide Trees, BackedRules;
    var keys := {};
    if providers.Some? { keys := ReadProviderKeys(providers.value, nodes); }
    kept, dropped := DropUnbacked(rules, keys);
  }

  lemma ListStandsIn(ns: seq<YamlNode>, nodes: set<YamlNode>)
    requires Roots(ns, nodes)
    ensures ListStands(ns, Views(ns), nodes) && NodesIn(ns, nodes)
  {
  }

  method NamespaceNodes(a: Arena, s: SourceNodes, ghost c: Contribution, ghost nodes: set<YamlNode>)
    returns (ps: seq<YamlNode>, gs: seq<YamlNode>, rs: seq<string>)
    requires a.Valid() && Trees(nodes) && SourceStands(s, c, nodes)
    modifies a
    ensures Grown(a) && NodesIn(ps, a.nodes) && NodesIn(gs, a.nodes)
    ensures ListStands(ps, RewriteProxies(c.name, c.proxies), a.nodes)
            && ListStands(gs, RewriteGroups(c.name, c.groups), a.nodes)
    ensures rs == RewriteRules(c.name, c.rules)
  {
    hide Trees, RewriteProxies, RewriteGroups, RewriteRules;
    assert Views(s.proxies) == c.proxies && Views(s.groups) == c.groups;
    ps, gs, rs := RewriteSource(a, s.name, s.proxies, s.groups, s.rules, nodes);
    ListStandsIn(ps, a.nodes);
    ListStandsIn(gs, a.nodes);
  }

  ghost predicate NodesIn(ns: seq<YamlNode>, nodes: set<YamlNode>) { forall n :: n in ns ==> n in nodes }

  /** One source through `RewriteSource`, `RewriteSourceRuleProviders` and `DropUnbackedRuleSetRules`. */
  method NamespaceOne(a: Arena, s: SourceNodes, ghost c: Contribution, ghost nodes: set<YamlNode>)
    returns (r: SourceNodes)
    requires a.Valid() && Trees(nodes) && SourceStands(s, c, nodes)
             && (c.providers.Some? ==> c.providers.value.kind == Mapping)
    modifies a
    ensures Grown(a) && NewSource(a, r, Namespaced(c))
  {
    hide Trees, RewriteProxies, RewriteGroups, RewriteRules, BackedRules, NamespacedProviders, ProviderKeys;
    var ps, gs, rs := NamespaceNodes(a, s, c, nodes);
    ghost var before := a.nodes;
    var providers, _ := RewriteSourceRuleProviders(a, s.name, s.providers, nodes);
    ListStandsMore(ps, RewriteProxies(c.name, c.proxies), before, a.nodes);
    ListStandsMore(gs, RewriteGroups(c.name, c.groups), before, a.nodes);
    var kept, dropped := NamespaceRules(rs, providers, a.nodes);
    r := SourceNodes(s.name, s.priority, ps, gs, kept, providers);
  }

  /** A source's rule-providers, when it has any, are a mapping. */
  ghost predicate ProvidersMapped(cs: seq<Contribution>) {
    forall i :: 0 <= i < |cs| && cs[i].providers.Some? ==> cs[i].providers.value.kind == Mapping
  }

  lemma {:induction false} ReadSourcesMapped(rows: seq<Row>, docs: map<string, Node>)
    ensures ProvidersMapped(ReadSources(rows, docs))
  {
    if rows != [] { ReadSourcesMapped(rows[..|rows| - 1], docs); }
  }

  lemma ProviderNodesSnoc(cs: seq<Contribution>, i: nat)
    requires i < |cs|
    ensures ProviderNodes(cs[..i + 1]) == ProviderNodes(cs[..i])
            + (if cs[i].providers.Some? then [cs[i].providers.value] else [])
  {
    assert cs[..i + 1][..i] == cs[..i];
  }

  /** The provider mappings, in source order. */
  ghost predicate ProviderRoots(provs: seq<YamlNode>, cs: seq<Contribution>, nodes: set<YamlNode>)
    reads provs
  {
    Roots(provs, nodes) && Views(provs) == ProviderNodes(cs)
  }

  lemma StandsSnoc(rs: seq<SourceNodes>, cs: seq<Contribution>, i: nat, r: SourceNodes, nodes: set<YamlNode>)
    requires i < |cs| && Stands(rs, cs[..i], nodes) && SourceStands(r, cs[i], nodes)
    ensures Stands(rs + [r], cs[..i + 1], nodes)
  {
    hide SourceStands;
  }

  lemma ProviderRootsSnoc(provs: seq<YamlNode>, cs: seq<Contribution>, i: nat, p: Option<YamlNode>,
                          nodes: set<YamlNode>)
    requires i < |cs| && ProviderRoots(provs, cs[..i], nodes) && (p.Some? <==> cs[i].providers.Some?)
    requires p.Some? ==>
               p.value in nodes && p.value.owner == null && p.value !in provs && p.value.view == cs[i].providers.value
    ensures ProviderRoots(if p.Some? then provs + [p.value] else provs, cs[..i + 1], nodes)
  {
    ProviderNodesSnoc(cs, i);
    if p.Some? { RootsAppend(provs, p.value, nodes); }
  }

  /** The namespacing loops of `Build`. */
  method NamespaceEvery(a: Arena, ss: seq<SourceNodes>, ghost cs: seq<Contribution>, ghost nodes: set<YamlNode>)
    returns (rs: seq<SourceNodes>, provs: seq<YamlNode>)
    requires a.Valid() && Trees(nodes) && Stands(ss, cs, nodes) && ProvidersMapped(cs)
    modifies a
    ensures Grown(a) && Stands(rs, NamespacedAll(cs), a.nodes)
    ensures ProviderRoots(provs, NamespacedAll(cs), a.nodes) && fresh(set p | p in provs)
  {
    hide Trees, Namespaced, ProviderNodes, ProviderRoots;
    rs, provs := [], [];
    ghost var want := NamespacedAll(cs);
    NoProviders(want, a.nodes);
    for i := 0 to |ss|
      invariant Grown(a) && Stands(rs, want[..i], a.nodes) && ProviderRoots(provs, want[..i], a.nodes)
                && fresh(set p | p in provs)
    {
      ghost var before := a.nodes;
      var r := NamespaceOne(a, ss[i], cs[i], nodes);
      StandsMore(rs, want[..i], before, a.nodes);
      StandsSnoc(rs, want, i, r, a.nodes);
      ProviderRootsMore(provs, want[..i], before, a.nodes);
      ProviderRootsSnoc(provs, want, i, r.providers, a.nodes);
      rs := rs + [r];
      if r.providers.Some? { provs := provs + [r.providers.value]; }
    }
    assert want[..|ss|] == want;
  }

  lemma NoProviders(cs: seq<Contribution>, nodes: set<YamlNode>)
    ensures ProviderRoots([], cs[..0], nodes)
  {
  }

  lemma ProviderRootsMore(provs: seq<YamlNode>, cs: seq<Contribution>, nodes: set<YamlNode>, more: set<YamlNode>)
    requires ProviderRoots(provs, cs, nodes) && nodes <= more
    ensures ProviderRoots(provs, cs, more)
  {
  }

  // ----- the generated groups

  lemma UpstreamOfKept(ns: seq<Node>, n: Node)
    ensures UpstreamNames(ns + [n]) == UpstreamNames(ns)
            + (if Name(n) != "" && Name(n)[0] != '_' then [Name(n)] else [])
  {
    assert (ns + [n])[..|ns|] == ns;
  }

  /** The two loops that pick the upstream proxies and their names. */
  method CollectUpstream(merged: seq<YamlNode>, ghost nodes: set<YamlNode>)
    returns (names: seq<string>, upstream: seq<YamlNode>)
    requires Trees(nodes) && forall k :: 0 <= k < |merged| ==> merged[k] in nodes
    ensures names == UpstreamNames(Views(merged)) == UpstreamNames(Views(upstream))
    ensures forall n :: n in upstream ==> n in merged
  {
    hide Trees, GetField, UpstreamNames;
    names, upstream := [], [];
    ghost var vs := Views(merged);
    assert UpstreamNames(vs[..0]) == [] && UpstreamNames([]) == [] by { NoUpstream(vs); }
    for i := 0 to |merged|
      invariant names == UpstreamNames(vs[..i]) == UpstreamNames(Views(upstream))
      invariant forall n :: n in upstream ==> n in merged
    {
      UpstreamSnoc(vs, i);
      var name := ReadField(merged[i], "name", nodes);
      if name == "" || name[0] == '_' {
        assert names + [] == names;
        continue;
      }
      UpstreamOfKept(Views(upstream), merged[i].view);
      assert Views(upstream + [merged[i]]) == Views(upstream) + [merged[i].view];
      names, upstream := names + [name], upstream + [merged[i]];
    }
    assert vs[..|vs|] == vs;
  }

  lemma NoUpstream(vs: seq<Node>)
    ensures UpstreamNames(vs[..0]) == [] && UpstreamNames([]) == []
  {
  }

  method AddSelector(a: Arena, groups: seq<YamlNode>, merged: seq<YamlNode>, selector: string, ghost vs: seq<Node>)
    returns (selected: seq<YamlNode>, upstream: seq<YamlNode>)
    requires a.Valid() && Roots(groups, a.nodes) && Apart(merged, groups) && ListStands(merged, vs, a.nodes)
    modifies a, groups
    ensures Grown(a) && Roots(selected, a.nodes) && Appended(groups, selected)
    ensures Views(selected) == WithSelector(old(Views(groups)), UpstreamNames(vs), selector)
    ensures UpstreamNames(Views(upstream)) == UpstreamNames(vs)
            && forall k :: 0 <= k < |upstream| ==> upstream[k] in a.nodes
  {
    hide Trees, WithSelector, UpstreamNames;
    var names;
    names, upstream := CollectUpstream(merged, a.nodes);
    assert Views(merged) == vs;
    assert forall k :: 0 <= k < |upstream| ==> upstream[k] in upstream;
    ghost var us := Views(upstream);
    selected := AppendProxiesGroup(a, groups, names, selector);
    assert Views(upstream) == us;
  }

  method AddRegions(a: Arena, groups: seq<YamlNode>, merged: seq<YamlNode>, selector: string, t: Tables, p: Params,
                    ghost vs: seq<Node>)
    returns (regions: seq<YamlNode>)
    requires a.Valid() && Roots(groups, a.nodes) && ValidTables(t) && Apart(merged, groups)
             && ListStands(merged, vs, a.nodes)
    modifies a, groups
    ensures Grown(a) && Roots(regions, a.nodes) && Appended(groups, regions)
    ensures Views(regions) == WithRegions(WithSelector(old(Views(groups)), UpstreamNames(vs), selector),
                                          UpstreamNames(vs), selector, t, p)
  {
    hide Trees, WithRegions, WithSelector, UpstreamNames, Roots, ValidTables, Apart, ListStands;
    var selected, upstream := AddSelector(a, groups, merged, selector, vs);
    regions := AppendRegionGroups(a, selected, upstream, selector, t, p);
  }

  /** Selector, regions and continents. */
  method GenerateGroups(a: Arena, groups: seq<YamlNode>, merged: seq<YamlNode>, selector: string, t: Tables,
                        p: Params, ghost vs: seq<Node>)
    returns (all: seq<YamlNode>)
    requires a.Valid() && Roots(groups, a.nodes) && ValidTables(t) && Apart(merged, groups)
             && ListStands(merged, vs, a.nodes)
    modifies a, groups
    ensures Grown(a) && Roots(all, a.nodes) && Appended(groups, all)
    ensures Views(all) == WithContinents(WithRegions(WithSelector(old(Views(groups)), UpstreamNames(vs), selector),
                                                     UpstreamNames(vs), selector, t, p), selector, t, p)
  {
    hide Trees, WithContinents, WithRegions, WithSelector, UpstreamNames, Roots, ValidTables, Apart, ListStands;
    var regions := AddRegions(a, groups, merged, selector, t, p, vs);
    all := AddContinents(a, regions, selector, t, p);
  }

  method AddContinents(a: Arena, regions: seq<YamlNode>, selector: string, t: Tables, p: Params)
    returns (all: seq<YamlNode>)
    requires a.Valid() && Roots(regions, a.nodes)
    modifies a, regions
    ensures Grown(a) && Roots(all, a.nodes) && Appended(regions, all)
    ensures Views(all) == WithContinents(old(Views(regions)), selector, t, p)
  {
    hide Trees, WithContinents, RegionCodesOf, RegionListsOf;
    var ccs, lists := ScanRegions(regions, a.nodes);
    all := AppendContinentGroups(a, regions, ccs, lists, selector, t, p);
  }

  // ----- the whole

  /** What `Build` hands to the output layer. */
  datatype Output = Output(proxies: seq<YamlNode>, groups: seq<YamlNode>, rules: MergedRules,
                           providers: Option<YamlNode>, collisions: seq<Collision>, conflicts: seq<Conflict>)

  ghost function ConfigOf(out: Output): (c: Config)
    reads out.proxies, out.groups, if out.providers.Some? then {out.providers.value} else {}
  {
    Config(Views(out.proxies), Views(out.groups), out.rules,
           if out.providers.Some? then Some(out.providers.value.view) else None,
           out.collisions, out.conflicts)
  }

  /** The served proxies, the served groups and the provider block are pairwise different trees inside
      `made`: none of their roots is part of another. */
  ghost predicate MadeOf(out: Output, made: set<YamlNode>)
    reads out.proxies, out.groups, if out.providers.Some? then {out.providers.value} else {}
  {
    && Roots(out.proxies, made) && Roots(out.groups, made) && Apart(out.proxies, out.groups)
    && (out.providers.Some? ==>
          && out.providers.value in made && out.providers.value.owner == null
          && out.providers.value !in out.proxies && out.providers.value !in out.groups)
  }

  lemma ServedIn(out: Output, made: set<YamlNode>)
    requires MadeOf(out, made)
    ensures NodesIn(out.proxies, made) && NodesIn(out.groups, made)
  {
  }

  /** The configuration that the real fields of the served nodes spell out. */
  ghost function SpelledConfig(out: Output, made: set<YamlNode>): (c: Config)
    requires Trees(made) && MadeOf(out, made)
    reads made
    ensures c == ConfigOf(out)
  {
    ServedIn(out, made);
    assert SpelledAll(out.proxies, made) == Views(out.proxies) && SpelledAll(out.groups, made) == Views(out.groups);
    Config(SpelledAll(out.proxies, made), SpelledAll(out.groups, made), out.rules,
           if out.providers.Some? then Some(Spelled(out.providers.value, made)) else None,
           out.collisions, out.conflicts)
  }

  /** What the operator configures, on the heap. */
  datatype Settings = Settings(rows: seq<Row>, ownProxies: seq<YamlNode>, ownGroups: seq<YamlNode>,
                               customs: seq<Contributor>, selector: string, fallback: string, tables: Tables,
                                 params: Params)

  /** The merged proxies and groups. */
  method MergeAll(a: Arena, own: seq<YamlNode>, ownGroups: seq<YamlNode>, sources: seq<SourceNodes>, ghost inp: Input,
                  ghost cs: seq<Contribution>)
    returns (merged: seq<YamlNode>, groups: seq<YamlNode>, collisions: seq<Collision>, conflicts: seq<Conflict>)
    requires a.Valid() && ListStands(own, OwnProxies(inp), a.nodes) && ListStands(ownGroups, OwnGroups(inp), a.nodes)
    requires Stands(sources, cs, a.nodes)
    modifies a
    ensures Grown(a) && NewRoots(a, merged) && NewRoots(a, groups) && Apart(merged, groups)
    ensures Views(merged) == AddProxies(ProxyPart(inp, cs)).merged
            && collisions == AddProxies(ProxyPart(inp, cs)).collisions
    ensures Views(groups) == AddGroups(GroupPart(inp, cs)).merged
            && conflicts == AddGroups(GroupPart(inp, cs)).conflicts
  {
    hide Trees, AddProxies, AddGroups, OwnProxies, OwnGroups, Stands;
    merged, collisions := MergeProxies(a, own, sources, OwnProxies(inp), cs);
    ListStandsMore(ownGroups, OwnGroups(inp), old(a.nodes), a.nodes);
    StandsMore(sources, cs, old(a.nodes), a.nodes);
    groups, conflicts := MergeProxyGroups(a, ownGroups, sources, OwnGroups(inp), cs);
  }

  /** The settings read from the heap are those of `inp`. */
  ghost predicate SettingsStand(st: Settings, inp: Input) {
    && st.rows == inp.rows && st.customs == inp.customs && st.selector == inp.selector && st.fallback == inp.fallback
    && st.tables == inp.tables && st.params == inp.params && ValidTables(inp.tables)
  }

  /** The last stage before pruning, as a function of the first ones. */
  ghost function AllGroupsOf(inp: Input, cs: seq<Contribution>): (r: seq<Node>) {
    var names := Upstream(inp, cs);
    var selected := WithSelector(AddGroups(GroupPart(inp, cs)).merged, names, inp.selector);
    WithContinents(WithRegions(selected, names, inp.selector, inp.tables, inp.params), inp.selector, inp.tables,
                   inp.params)
  }

  /** Merging and generating: everything before fan-out. */
  method PrepareNodes(a: Arena, own: seq<YamlNode>, ownGroups: seq<YamlNode>, sources: seq<SourceNodes>, st: Settings,
                      ghost inp: Input, ghost cs: seq<Contribution>)
    returns (merged: seq<YamlNode>, all: seq<YamlNode>, collisions: seq<Collision>, conflicts: seq<Conflict>)
    requires a.Valid() && ListStands(own, OwnProxies(inp), a.nodes) && ListStands(ownGroups, OwnGroups(inp), a.nodes)
    requires Stands(sources, cs, a.nodes) && SettingsStand(st, inp)
    modifies a
    ensures Grown(a) && NewRoots(a, merged) && NewRoots(a, all) && Apart(merged, all)
    ensures Views(merged) == AddProxies(ProxyPart(inp, cs)).merged
            && collisions == AddProxies(ProxyPart(inp, cs)).collisions
    ensures Views(all) == AllGroupsOf(inp, cs) && conflicts == AddGroups(GroupPart(inp, cs)).conflicts
  {
    hide Trees, AddProxies, AddGroups, OwnProxies, OwnGroups, Stands, WithContinents, WithRegions, WithSelector,
         UpstreamNames, ProxyPart, GroupPart, ValidTables;
    var groups;
    merged, groups, collisions, conflicts := MergeAll(a, own, ownGroups, sources, inp, cs);
    ghost var vs := Views(merged);
    ghost var before := a.nodes;
    assert ListStands(merged, vs, a.nodes);
    all := GenerateGroups(a, groups, merged, st.selector, st.tables, st.params, vs);
  }

  /** The rules per source, as `MergeUnifiedRules` reads them. */
  method RuleLists(sources: seq<SourceNodes>, ghost cs: seq<Contribution>, ghost nodes: set<YamlNode>)
    returns (r: seq<Contributor>)
    requires Stands(sources, cs, nodes)
    ensures RulesOf(r, cs)
  {
    r := [];
    for i := 0 to |sources|
      invariant RulesOf(r, cs[..i])
    {
      assert SourceStands(sources[i], cs[i], nodes);
      r := r + [Contributor(sources[i].name, sources[i].priority, sources[i].rules)];
    }
    assert cs[..|cs|] == cs;
  }

  /** The proxies `Build` serves. */
  ghost function ServedProxies(inp: Input, cs: seq<Contribution>): (r: seq<Node>) {
    AddProxies(ProxyPart(inp, cs)).merged + FanoutProxies(OwnProxies(inp), AllGroupsOf(inp, cs), inp.selector)
  }

  lemma SettingsAgree(st: Settings, inp: Input)
    requires SettingsStand(st, inp)
    ensures st.selector == inp.selector && st.fallback == inp.fallback && st.customs == inp.customs
  {
  }

  /** The fan-out copies behind the merged proxies. */
  method AddCopies(a: Arena, own: seq<YamlNode>, merged: seq<YamlNode>, all: seq<YamlNode>, selector: string)
    returns (proxies: seq<YamlNode>)
    requires a.Valid() && Roots(merged, a.nodes) && Roots(all, a.nodes) && Apart(merged, all) && NodesIn(own, a.nodes)
    modifies a
    ensures Grown(a) && Roots(proxies, a.nodes) && Appended(merged, proxies) && Apart(proxies, all)
    ensures Views(proxies) == old(Views(merged)) + FanoutProxies(old(Views(own)), old(Views(all)), selector)
  {
    hide Trees, FanoutProxies, Roots, Apart, ListStands;
    ListStandsIn(merged, a.nodes);
    ListStandsIn(all, a.nodes);
    ghost var before, mv, ov, av := a.nodes, Views(merged), Views(own), Views(all);
    assert forall k :: 0 <= k < |all| ==> all[k] in all;
    assert forall k :: 0 <= k < |own| ==> own[k] in own;
    var copies, _ := AppendFanoutProxies(a, own, all, selector);
    RootsMore(merged, before, a.nodes);
    assert Views(merged) == mv && Views(own) == ov && Views(all) == av;
    assert forall n :: n in copies ==> n !in before;
    RootsConcat(merged, copies, a.nodes);
    ApartConcat(merged, copies, all, before);
    proxies := merged + copies;
  }

  lemma ApartConcat(ns: seq<YamlNode>, ms: seq<YamlNode>, others: seq<YamlNode>, before: set<YamlNode>)
    requires Apart(ns, others) && NodesIn(others, before) && forall m :: m in ms ==> m !in before
    ensures Apart(ns + ms, others)
  {
    forall j | 0 <= j < |ms| ensures ms[j] !in before { assert ms[j] in ms; }
    forall j | 0 <= j < |others| ensures others[j] in before { assert others[j] in others; }
  }

  /** Everything before pruning. */
  method StageNodes(a: Arena, own: seq<YamlNode>, ownGroups: seq<YamlNode>, sources: seq<SourceNodes>, st: Settings,
                    ghost inp: Input, ghost cs: seq<Contribution>)
    returns (proxies: seq<YamlNode>, all: seq<YamlNode>, collisions: seq<Collision>, conflicts: seq<Conflict>)
    requires a.Valid() && ListStands(own, OwnProxies(inp), a.nodes) && ListStands(ownGroups, OwnGroups(inp), a.nodes)
    requires Stands(sources, cs, a.nodes) && SettingsStand(st, inp)
    modifies a
    ensures Grown(a) && NewRoots(a, proxies) && NewRoots(a, all) && Apart(proxies, all)
    ensures Views(proxies) == ServedProxies(inp, cs)
            && collisions == AddProxies(ProxyPart(inp, cs)).collisions
    ensures Views(all) == AllGroupsOf(inp, cs) && conflicts == AddGroups(GroupPart(inp, cs)).conflicts
  {
    hide Trees, AddProxies, AddGroups, OwnProxies, OwnGroups, Stands, FanoutProxies, ProxyPart, GroupPart,
         AllGroupsOf, SettingsStand;
    SettingsAgree(st, inp);
    var merged;
    merged, all, collisions, conflicts := PrepareNodes(a, own, ownGroups, sources, st, inp, cs);
    assert Views(own) == OwnProxies(inp);
    proxies := AddCopies(a, own, merged, all, st.selector);
  }

  lemma AssembleParts(inp: Input, cs: seq<Contribution>)
    ensures var merged := Merged(UpstreamParts(cs) + CustomParts(inp.customs), inp.fallback);
            var pruned := PruneGroups(AllGroupsOf(inp, cs), merged.rules, inp.selector, inp.fallback);
            Assemble(inp, cs) == Config(ServedProxies(inp, cs), pruned.groups, merged.(rules := pruned.rules),
                                        MergedProviders(ProviderNodes(cs), Referenced(pruned.rules)),
                                        AddProxies(ProxyPart(inp, cs)).collisions,
                                          AddGroups(GroupPart(inp, cs)).conflicts)
  {
    hide AddProxies, AddGroups, WithContinents, WithRegions, WithSelector, Merged, PruneGroups, MergedProviders,
         FanoutProxies, Referenced;
  }

  ghost predicate ListedRoots(ns: seq<YamlNode>, vs: seq<Node>, nodes: set<YamlNode>)
    reads ns
  {
    Roots(ns, nodes) && Views(ns) == vs
  }

  /** Pruning leaves the proxies and the provider mappings alone. */
  method PruneNodes(a: Arena, proxies: seq<YamlNode>, all: seq<YamlNode>, rules: seq<string>, provs: seq<YamlNode>,
                    st: Settings, ghost pv: seq<Node>, ghost cs: seq<Contribution>)
    returns (kept: seq<YamlNode>, prunedRules: seq<string>)
    requires a.Valid() && Roots(all, a.nodes) && ListedRoots(proxies, pv, a.nodes) && ProviderRoots(provs, cs, a.nodes)
    requires Apart(proxies, all) && Apart(provs, all)
    modifies a, all
    ensures Grown(a) && ListedRoots(proxies, pv, a.nodes) && ProviderRoots(provs, cs, a.nodes)
            && forall n :: n in kept ==> n in all
    ensures var pruned := PruneGroups(old(Views(all)), rules, st.selector, st.fallback);
            Views(kept) == pruned.groups && prunedRules == pruned.rules
    ensures Roots(kept, a.nodes)
  {
    hide Trees, PruneGroups, ProviderNodes;
    var removed, retargets;
    kept, prunedRules, removed, retargets := PruneEmptyProxyGroups(a, all, rules, st.selector, st.fallback);
    ghost var pruned := PruneGroups(old(Views(all)), rules, st.selector, st.fallback);
    assert pruned == Pruned(Views(kept), prunedRules, removed, retargets);
  }

  /** The last step: the provider block. It only moves nodes, so every view stays. */
  method FinishNodes(a: Arena, proxies: seq<YamlNode>, kept: seq<YamlNode>, rules: seq<string>, provs: seq<YamlNode>,
                     ghost pv: seq<Node>, ghost gv: seq<Node>, ghost cs: seq<Contribution>)
    returns (providers: Option<YamlNode>)
    requires a.Valid() && ListedRoots(proxies, pv, a.nodes) && ListedRoots(kept, gv, a.nodes)
             && ProviderRoots(provs, cs, a.nodes)
    requires Apart(proxies, provs) && Apart(kept, provs)
    modifies a, a.nodes`owner, a.nodes`slot
    ensures a.Valid() && fresh(a.nodes - old(a.nodes)) && ListedRoots(proxies, pv, a.nodes)
            && ListedRoots(kept, gv, a.nodes)
    ensures providers.Some? ==> NewRoot(a, providers.value)
    ensures (if providers.Some? then Some(providers.value.view) else None)
            == MergedProviders(ProviderNodes(cs), Referenced(rules))
  {
    hide Trees, MergedProviders, Referenced, ProviderNodes;
    var wanted := CollectReferenced(rules);
    providers := MergeRuleProviders(a, provs, wanted);
  }

  /** Pruning and the provider block. */
  method ServeNodes(a: Arena, proxies: seq<YamlNode>, all: seq<YamlNode>, rules: seq<string>, provs: seq<YamlNode>,
                    st: Settings, ghost pv: seq<Node>, ghost cs: seq<Contribution>)
    returns (kept: seq<YamlNode>, prunedRules: seq<string>, providers: Option<YamlNode>)
    requires a.Valid() && Roots(all, a.nodes) && ListedRoots(proxies, pv, a.nodes) && ProviderRoots(provs, cs, a.nodes)
    requires Apart(proxies, all) && Apart(provs, all) && Apart(proxies, provs)
    modifies a, all, a.nodes`owner, a.nodes`slot
    ensures a.Valid() && fresh(a.nodes - old(a.nodes)) && Roots(proxies, a.nodes) && Roots(kept, a.nodes)
    ensures Apart(proxies, kept)
    ensures providers.Some? ==>
              NewRoot(a, providers.value) && providers.value !in proxies && providers.value !in kept
    ensures var pruned := PruneGroups(old(Views(all)), rules, st.selector, st.fallback);
            && Views(proxies) == pv && Views(kept) == pruned.groups && prunedRules == pruned.rules
            && (if providers.Some? then Some(providers.value.view) else None)
               == MergedProviders(ProviderNodes(cs), Referenced(pruned.rules))
  {
    hide Trees, PruneGroups, MergedProviders, Referenced, ProviderNodes, Roots;
    kept, prunedRules := PruneNodes(a, proxies, all, rules, provs, st, pv, cs);
    ghost var gv := Views(kept);
    KeptApart(kept, all, provs);
    KeptApart(kept, all, proxies);
    providers := FinishNodes(a, proxies, kept, prunedRules, provs, pv, gv, cs);
  }

  lemma KeptApart(kept: seq<YamlNode>, all: seq<YamlNode>, provs: seq<YamlNode>)
    requires Apart(provs, all) && forall n :: n in kept ==> n in all
    ensures Apart(kept, provs)
  {
    forall i, j | 0 <= i < |kept| && 0 <= j < |provs| ensures kept[i] != provs[j] { assert kept[i] in all; }
  }

  /** `Build` after namespacing. */
  method AssembleNodes(a: Arena, own: seq<YamlNode>, ownGroups: seq<YamlNode>, sources: seq<SourceNodes>,
                       provs: seq<YamlNode>, st: Settings, ghost inp: Input, ghost cs: seq<Contribution>)
    returns (out: Output)
    requires a.Valid() && ListStands(own, OwnProxies(inp), a.nodes) && ListStands(ownGroups, OwnGroups(inp), a.nodes)
    requires Stands(sources, cs, a.nodes) && SettingsStand(st, inp) && ProviderRoots(provs, cs, a.nodes)
    modifies a, a.nodes`owner, a.nodes`slot
    ensures a.Valid() && fresh(a.nodes - old(a.nodes)) && MadeOf(out, a.nodes)
    ensures ConfigOf(out) == Assemble(inp, cs)
  {
    hide Trees, AddProxies, AddGroups, OwnProxies, OwnGroups, Stands, FanoutProxies, ProxyPart, GroupPart,
         AllGroupsOf, Merged, PruneGroups, MergedProviders, Referenced, Assemble, ProviderNodes, UpstreamParts,
           CustomParts, ServedProxies, SettingsStand, Roots;
    SettingsAgree(st, inp);
    var upstreamRules := RuleLists(sources, cs, a.nodes);
    var proxies, all, collisions, conflicts := StageNodes(a, own, ownGroups, sources, st, inp, cs);
    ghost var pv := ServedProxies(inp, cs);
    ProviderRootsMore(provs, cs, old(a.nodes), a.nodes);
    var rules := MergeUnifiedRules(upstreamRules, st.customs, st.fallback, cs);
    assert Apart(provs, all) && Apart(proxies, provs);
    var kept, prunedRules, providers := ServeNodes(a, proxies, all, rules.rules, provs, st, pv, cs);
    AssembleParts(inp, cs);
    out := Output(proxies, kept, rules.(rules := prunedRules), providers, collisions, conflicts);
  }

  /** The cached payloads and the operator's nodes stand for the inputs. */
  ghost predicate InputsStand(cache: map<string, YamlNode>, st: Settings, inp: Input, nodes: set<YamlNode>)
    reads nodes
  {
    && Trees(nodes) && Cached(cache, inp.docs, nodes) && SettingsStand(st, inp)
    && NodesIn(st.ownProxies, nodes) && NodesIn(st.ownGroups, nodes)
    && ListStands(st.ownProxies, inp.ownProxies, nodes) && ListStands(st.ownGroups, inp.ownGroups, nodes)
  }

  /** Reading and namespacing. */
  method GatherNodes(a: Arena, cache: map<string, YamlNode>, st: Settings, ghost inp: Input, ghost nodes: set<YamlNode>)
    returns (sources: seq<SourceNodes>, provs: seq<YamlNode>)
    requires a.Valid() && InputsStand(cache, st, inp, nodes)
    modifies a
    ensures Grown(a) && Stands(sources, NamespacedAll(Sources(inp)), a.nodes)
            && ProviderRoots(provs, NamespacedAll(Sources(inp)), a.nodes)
  {
    hide Trees, ReadSources, SortedRows, NamespacedAll, Cached, ListStands, ProviderRoots;
    var rows := SortSources(st.rows);
    var raw := ReadAll(rows, cache, inp.docs, nodes);
    ReadSourcesMapped(rows, inp.docs);
    sources, provs := NamespaceEvery(a, raw, Sources(inp), nodes);
  }

  method OwnNodes(a: Arena, st: Settings, ghost inp: Input, ghost nodes: set<YamlNode>)
    returns (own: seq<YamlNode>, ownGroups: seq<YamlNode>)
    requires a.Valid() && Trees(nodes) && NodesIn(st.ownProxies, nodes) && NodesIn(st.ownGroups, nodes)
    requires ListStands(st.ownProxies, inp.ownProxies, nodes) && ListStands(st.ownGroups, inp.ownGroups, nodes)
    modifies a
    ensures Grown(a) && ListStands(own, OwnProxies(inp), a.nodes) && ListStands(ownGroups, OwnGroups(inp), a.nodes)
  {
    hide Trees, RewriteOwnProxies, RewriteOwnGroups;
    assert Views(st.ownProxies) == inp.ownProxies && Views(st.ownGroups) == inp.ownGroups;
    own, ownGroups := RewriteOwn(a, st.ownProxies, st.ownGroups, nodes);
    ListStandsIn(own, a.nodes);
    ListStandsIn(ownGroups, a.nodes);
  }

  /** Everything the merge passes start from. */
  method InputNodes(a: Arena, cache: map<string, YamlNode>, st: Settings, ghost inp: Input, ghost nodes: set<YamlNode>)
    returns (own: seq<YamlNode>, ownGroups: seq<YamlNode>, sources: seq<SourceNodes>, provs: seq<YamlNode>)
    requires a.Valid() && InputsStand(cache, st, inp, nodes)
    modifies a
    ensures Grown(a) && ListStands(own, OwnProxies(inp), a.nodes) && ListStands(ownGroups, OwnGroups(inp), a.nodes)
    ensures var cs := NamespacedAll(Sources(inp)); Stands(sources, cs, a.nodes) && ProviderRoots(provs, cs, a.nodes)
  {
    hide Trees, Sources, NamespacedAll, Cached, SettingsStand, ProviderRoots, Stands, Roots, OwnProxies, OwnGroups,
         ListStands, NodesIn;
    sources, provs := GatherNodes(a, cache, st, inp, nodes);
    ghost var before := a.nodes;
    own, ownGroups := OwnNodes(a, st, inp, nodes);
    StandsMore(sources, NamespacedAll(Sources(inp)), before, a.nodes);
    ProviderRootsMore(provs, NamespacedAll(Sources(inp)), before, a.nodes);
  }

  /** `Pipeline.Build`: the served configuration is the one the passes describe, it consists of new
      nodes from the roots to the leaves, and every node that existed before the call is as it was. */
  method Build(cache: map<string, YamlNode>, st: Settings, ghost inp: Input, ghost nodes: set<YamlNode>)
    returns (out: Output, ghost made: set<YamlNode>)
    requires InputsStand(cache, st, inp, nodes)
    ensures fresh(made) && Trees(made) && MadeOf(out, made)
    ensures SpelledConfig(out, made) == Pipeline.Build(inp)
  {
    hide Trees, Sources, NamespacedAll, Assemble, Cached, SettingsStand, ProviderRoots, Stands, Roots, OwnProxies,
         OwnGroups, ListStands, NodesIn;
    var a := new Arena();
    var own, ownGroups, sources, provs := InputNodes(a, cache, st, inp, nodes);
    out := AssembleNodes(a, own, ownGroups, sources, provs, st, inp, NamespacedAll(Sources(inp)));
    made := a.nodes;
  }

  /** Two builds on the same cache serve equal trees of disjoint nodes; the first result and the
      inputs survive the second build. */
  method BuildTwice(cache: map<string, YamlNode>, st: Settings, ghost inp: Input, ghost nodes: set<YamlNode>)
    returns (first: Output, second: Output, ghost made1: set<YamlNode>, ghost made2: set<YamlNode>)
    requires InputsStand(cache, st, inp, nodes)
    ensures fresh(made1) && Trees(made1) && MadeOf(first, made1)
    ensures fresh(made2) && Trees(made2) && MadeOf(second, made2) && made1 !! made2
    ensures SpelledConfig(first, made1) == SpelledConfig(second, made2) && InputsStand(cache, st, inp, nodes)
  {
    hide Pipeline.Build, InputsStand, Trees, MadeOf;
    first, made1 := Build(cache, st, inp, nodes);
    second, made2 := Build(cache, st, inp, nodes);
  }
}
