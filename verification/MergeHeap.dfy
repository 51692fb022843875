/** The merge passes on heap nodes: `MergeProxies` and `MergeProxyGroups`, each proved against its
    value-level form. They write only nodes of the arena. */
module MergeHeap {
  import opened Text
  import opened Yaml
  import opened NodeHeap
  import opened Namespace
  import opened MergeNodes

  /** One source's nodes, as `Build` keeps them per source name. */
  datatype SourceNodes = SourceNodes(name: string, priority: int, proxies: seq<YamlNode>, groups: seq<YamlNode>,
                                     rules: seq<string>, providers: Option<YamlNode>)

  /** The sources' nodes stand for the contributions `cs`. */
  ghost predicate Stands(ss: seq<SourceNodes>, cs: seq<Contribution>, nodes: set<YamlNode>)
    reads nodes
  {
    && |ss| == |cs|
    && forall i :: 0 <= i < |ss| ==> SourceStands(ss[i], cs[i], nodes)
  }

  ghost predicate SourceStands(s: SourceNodes, c: Contribution, nodes: set<YamlNode>)
    reads nodes
  {
    && s.name == c.name && s.priority == c.priority && s.rules == c.rules
    && (forall p :: p in s.proxies ==> p in nodes) && (forall g :: g in s.groups ==> g in nodes)
    && ListStands(s.proxies, c.proxies, nodes) && ListStands(s.groups, c.groups, nodes)
    && (s.providers.Some? <==> c.providers.Some?)
    && (s.providers.Some? ==> s.providers.value in nodes && s.providers.value.view == c.providers.value)
  }

  ghost predicate ListStands(ns: seq<YamlNode>, vs: seq<Node>, nodes: set<YamlNode>)
    reads ns
  {
    |ns| == |vs| && forall i :: 0 <= i < |ns| ==> ns[i] in nodes && ns[i].view == vs[i]
  }

  // ----- member lists

  /** The members of `existing` and then the new ones of `more`, each once. */
  method UnionMembers(existing: seq<string>, more: seq<string>) returns (r: seq<string>)
    ensures r == UnionList(existing, more)
  {
    r := existing;
    var seen := {};
    for i := 0 to |existing|
      invariant seen == set x | x in existing[..i]
    {
      assert existing[..i + 1] == existing[..i] + [existing[i]];
      seen := seen + {existing[i]};
    }
    assert existing[..|existing|] == existing;
    for i := 0 to |more|
      invariant r == UnionList(existing, more[..i]) && seen == set x | x in r
    {
      assert more[..i + 1][..i] == more[..i];
      if more[i] !in seen {
        r := r + [more[i]];
        seen := seen + {more[i]};
      }
    }
    assert more[..|more|] == more;
  }

  // ----- proxies

  /** The accumulators of `MergeProxies`. */
  datatype ProxyAcc = ProxyAcc(merged: seq<YamlNode>, used: set<string>, first: map<string, string>,
                               collisions: seq<Collision>)

  ghost function StateOf(acc: ProxyAcc): (st: ProxyMerge)
    reads acc.merged
  {
    ProxyMerge(Views(acc.merged), acc.used, acc.first, acc.collisions)
  }

  /** The list after a pass holds the list before it and then new nodes. */
  twostate predicate Appended(before: seq<YamlNode>, new after: seq<YamlNode>) {
    before <= after && fresh(set n | n in after[|before|..])
  }

  ghost predicate Apart(ns: seq<YamlNode>, ms: seq<YamlNode>) {
    forall i, j :: 0 <= i < |ns| && 0 <= j < |ms| ==> ns[i] != ms[j]
  }

  lemma StandsMore(ss: seq<SourceNodes>, cs: seq<Contribution>, nodes: set<YamlNode>, more: set<YamlNode>)
    requires Stands(ss, cs, nodes) && nodes <= more
    ensures Stands(ss, cs, more)
  {
  }

  lemma ListStandsMore(ns: seq<YamlNode>, vs: seq<Node>, nodes: set<YamlNode>, more: set<YamlNode>)
    requires ListStands(ns, vs, nodes) && nodes <= more
    ensures ListStands(ns, vs, more)
  {
  }

  /** The body of both loops: one proxy is cloned and, if its name is taken, suffixed. */
  method MergeProxy(a: Arena, p: YamlNode, own: bool, source: string, acc: ProxyAcc) returns (r: ProxyAcc)
    requires a.Valid() && p in a.nodes && Roots(acc.merged, a.nodes)
    modifies a
    ensures Grown(a) && Roots(r.merged, a.nodes) && Appended(acc.merged, r.merged)
    ensures StateOf(r) == AddProxy(old(StateOf(acc)), Item(own, source, old(p.view)))
  {
    hide GetField, SetField, Trees;
    r := acc;
    var clone := a.Clone(p, a.nodes);
    assert clone !in acc.merged;
    var name := ReadField(clone, "name", a.nodes);
    if name == "" { return; }
    if own {
      r := r.(used := acc.used + {name}, first := acc.first[name := "own"]);
    } else if name in acc.used {
      var final := name + "@" + source;
      var _ := a.WriteField(clone, "name", final);
      r := r.(used := acc.used + {final}, collisions := acc.collisions
        + [Collision(name, FirstOf(acc.first, name), source, final)]);
    } else {
      r := r.(used := acc.used + {name}, first := acc.first[name := source]);
    }
    RootsAppend(acc.merged, clone, a.nodes);
    r := r.(merged := acc.merged + [clone]);
  }

  function Items(own: bool, source: string, ns: seq<Node>): (r: seq<Item>)
    ensures |r| == |ns|
  {
    if own then OwnItems(ns) else SourceItems(source, ns)
  }

  lemma AddProxiesSnoc(items: seq<Item>, item: Item)
    ensures AddProxies(items + [item]) == AddProxy(AddProxies(items), item)
  {
    assert (items + [item])[..|items|] == items;
  }

  /** One loop of `MergeProxies` over a list of proxies. */
  method MergeProxyList(a: Arena, ps: seq<YamlNode>, own: bool, source: string, acc: ProxyAcc,
                        ghost before: seq<Item>, ghost vs: seq<Node>)
    returns (r: ProxyAcc)
    requires a.Valid() && ListStands(ps, vs, a.nodes) && Roots(acc.merged, a.nodes)
    requires StateOf(acc) == AddProxies(before) && (own ==> source == "own")
    modifies a
    ensures Grown(a) && Roots(r.merged, a.nodes) && Appended(acc.merged, r.merged)
    ensures StateOf(r) == AddProxies(before + Items(own, source, vs))
  {
    hide AddProxy, AddProxies, Roots, Trees, StateOf;
    r := acc;
    ghost var items := Items(own, source, vs);
    assert before + items[..0] == before;
    for i := 0 to |ps|
      invariant Grown(a) && Roots(r.merged, a.nodes) && Appended(acc.merged, r.merged)
      invariant StateOf(r) == AddProxies(before + items[..i])
    {
      AddProxiesSnoc(before + items[..i], items[i]);
      assert before + items[..i + 1] == before + items[..i] + [items[i]];
      r := MergeProxy(a, ps[i], own, source, r);
    }
    assert items[..|ps|] == items;
  }

  lemma ItemsSnoc(cs: seq<Contribution>, i: nat, own: seq<Item>)
    requires i < |cs|
    ensures own + ProxyItems(cs[..i + 1]) == own + ProxyItems(cs[..i]) + SourceItems(cs[i].name, cs[i].proxies)
    ensures own + GroupItems(cs[..i + 1]) == own + GroupItems(cs[..i]) + SourceItems(cs[i].name, cs[i].groups)
  {
    assert cs[..i + 1][..i] == cs[..i];
  }

  /** The source loop of `MergeProxies`. */
  method MergeSourceProxies(a: Arena, sources: seq<SourceNodes>, start: ProxyAcc, ghost before: seq<Item>,
                            ghost cs: seq<Contribution>)
    returns (acc: ProxyAcc)
    requires a.Valid() && Stands(sources, cs, a.nodes) && Roots(start.merged, a.nodes)
             && StateOf(start) == AddProxies(before)
    modifies a
    ensures Grown(a) && Roots(acc.merged, a.nodes) && Appended(start.merged, acc.merged)
    ensures StateOf(acc) == AddProxies(before + ProxyItems(cs))
  {
    hide AddProxies, StateOf, Roots, Trees;
    acc := start;
    assert before + ProxyItems(cs[..0]) == before;
    for i := 0 to |sources|
      invariant Grown(a) && Roots(acc.merged, a.nodes) && Appended(start.merged, acc.merged)
      invariant StateOf(acc) == AddProxies(before + ProxyItems(cs[..i]))
      invariant Stands(sources, cs, old(a.nodes))
    {
      ItemsSnoc(cs, i, before);
      assert SourceStands(sources[i], cs[i], old(a.nodes));
      ListStandsMore(sources[i].proxies, cs[i].proxies, old(a.nodes), a.nodes);
      acc := MergeProxyList(a, sources[i].proxies, false, sources[i].name, acc, before + ProxyItems(cs[..i]),
                            cs[i].proxies);
    }
    assert cs[..|cs|] == cs;
  }

  lemma NoProxies()
    ensures AddProxies([]) == ProxyMerge([], {}, map[], [])
  {
  }

  /** `MergeProxies` */
  method MergeProxies(a: Arena, own: seq<YamlNode>, sources: seq<SourceNodes>, ghost ownViews: seq<Node>,
                      ghost cs: seq<Contribution>)
    returns (merged: seq<YamlNode>, collisions: seq<Collision>)
    requires a.Valid() && ListStands(own, ownViews, a.nodes) && Stands(sources, cs, a.nodes)
    modifies a
    ensures Grown(a) && NewRoots(a, merged)
    ensures var st := MergedProxies(ownViews, cs); Views(merged) == st.merged && collisions == st.collisions
  {
    hide Trees, AddProxies, AddProxy, ProxyItems, OwnItems, Stands, ListStands;
    var acc := ProxyAcc([], {}, map[], []);
    assert StateOf(acc) == AddProxies([]) by { NoProxies(); }
    acc := MergeProxyList(a, own, true, "own", acc, [], ownViews);
    assert [] + OwnItems(ownViews) == OwnItems(ownViews);
    StandsMore(sources, cs, old(a.nodes), a.nodes);
    acc := MergeSourceProxies(a, sources, acc, OwnItems(ownViews), cs);
    merged, collisions := acc.merged, acc.collisions;
  }

  // ----- groups

  /** The attribute loop of `MergeProxyGroups`. */
  method CompareAttributes(attrs: seq<string>, existing: YamlNode, incoming: YamlNode, name: string, chosen: string,
                           source: string, ghost nodes: set<YamlNode>)
    returns (r: seq<Conflict>)
    requires Trees(nodes) && existing in nodes && incoming in nodes
    ensures r == ConflictsOn(attrs, existing.view, incoming.view, name, chosen, source)
  {
    hide GetField, Trees;
    r := [];
    for i := 0 to |attrs|
      invariant r == ConflictsOn(attrs[..i], existing.view, incoming.view, name, chosen, source)
    {
      assert attrs[..i + 1][..i] == attrs[..i];
      var ev := ReadField(existing, attrs[i], nodes);
      var nv := ReadField(incoming, attrs[i], nodes);
      if !(ev == "" || nv == "" || ev == nv) { r := r + [Conflict(name, attrs[i], chosen, ev, source, nv)]; }
    }
    assert attrs[..|attrs|] == attrs;
  }

  /** The variables the `add` closure of `MergeProxyGroups` captures. */
  datatype GroupAcc = GroupAcc(merged: seq<YamlNode>, byName: map<string, YamlNode>, chosen: map<string, string>,
                               conflicts: seq<Conflict>)

  /** `acc` stands for `st`: `byName` points at the group the index names. */
  ghost predicate GroupsStand(acc: GroupAcc, st: GroupMerge, nodes: set<YamlNode>)
    reads acc.merged
  {
    && Roots(acc.merged, nodes) && Views(acc.merged) == st.merged
    && acc.chosen == st.first && acc.conflicts == st.conflicts && acc.byName.Keys == st.index.Keys
    && forall x :: x in acc.byName ==> st.index[x] < |acc.merged| && acc.merged[st.index[x]] == acc.byName[x]
  }

  lemma UpdatedViews(ns: seq<YamlNode>, i: nat, views: seq<Node>)
    requires i < |ns| == |views| && forall k :: 0 <= k < |ns| && k != i ==> ns[k].view == views[k]
    ensures Views(ns) == views[i := ns[i].view]
  {
  }

  function Registered(acc: GroupAcc, name: string, clone: YamlNode, source: string): (r: GroupAcc) {
    acc.(merged := acc.merged + [clone], byName := acc.byName[name := clone], chosen := acc.chosen[name := source])
  }

  lemma RegisteredStands(acc: GroupAcc, st: GroupMerge, item: Item, clone: YamlNode, nodes: set<YamlNode>)
    requires GroupsStand(acc, st, nodes) && clone in nodes && clone.owner == null && clone !in acc.merged
    requires clone.view == item.node && Name(item.node) != "" && Name(item.node) !in acc.byName
    ensures GroupsStand(Registered(acc, Name(item.node), clone, item.source), AddGroup(st, item), nodes)
  {
    hide Name;
    RootsAppend(acc.merged, clone, nodes);
  }

  lemma RestStands(acc: GroupAcc, st: GroupMerge, nodes: set<YamlNode>, more: set<YamlNode>)
    requires GroupsStand(acc, st, nodes) && nodes <= more
    ensures GroupsStand(acc, st, more)
  {
  }

  lemma UniteIsAdd(acc: GroupAcc, st: GroupMerge, item: Item, nodes: set<YamlNode>)
    requires GroupsStand(acc, st, nodes) && Name(item.node) in acc.byName && Name(item.node) != ""
    ensures var name := Name(item.node);
            var i := st.index[name];
            var g := AddMembers(st.merged[i], Members(item.node));
            AddGroup(st, item) == st.(merged := st.merged[i := g],
              conflicts := st.conflicts + ConflictsOn(COMPARED, g, item.node, name, FirstOf(st.first, name),
                                                      item.source))
  {
    hide Name, Members, AddMembers, ConflictsOn;
  }

  /** The `add` closure. */
  method AddOneGroup(a: Arena, g: YamlNode, source: string, acc: GroupAcc, ghost st: GroupMerge, ghost item: Item)
    returns (r: GroupAcc)
    requires a.Valid() && GroupsStand(acc, st, a.nodes) && g in a.nodes && g !in acc.merged
    requires item.source == source && item.node == g.view
    modifies a, acc.merged
    ensures Grown(a) && Appended(acc.merged, r.merged)
    ensures GroupsStand(r, AddGroup(st, item), a.nodes)
  {
    hide AddGroup;
    var clone := a.Clone(g, a.nodes);
    RestStands(acc, st, old(a.nodes), a.nodes);
    r := AddClone(a, clone, source, acc, st, item);
  }

  method AddClone(a: Arena, clone: YamlNode, source: string, acc: GroupAcc, ghost st: GroupMerge, ghost item: Item)
    returns (r: GroupAcc)
    requires a.Valid() && GroupsStand(acc, st, a.nodes) && clone in a.nodes && clone.owner == null
             && clone !in acc.merged
    requires item.source == source && item.node == clone.view
    modifies a, acc.merged
    ensures Grown(a) && (r.merged == acc.merged || r.merged == acc.merged + [clone])
    ensures GroupsStand(r, AddGroup(st, item), a.nodes)
  {
    hide GetField, AddMembers, Members, ConflictsOn, GroupsStand;
    r := acc;
    var name := ReadField(clone, "name", a.nodes);
    if name == "" { return; }
    if name !in acc.byName {
      RegisteredStands(acc, st, item, clone, a.nodes);
      r := Registered(acc, name, clone, source);
    } else {
      UniteIsAdd(acc, st, item, a.nodes);
      r := UniteGroup(a, name, clone, source, acc, st);
    }
  }

  method UniteGroup(a: Arena, name: string, clone: YamlNode, source: string, acc: GroupAcc, ghost st: GroupMerge)
    returns (r: GroupAcc)
    requires a.Valid() && GroupsStand(acc, st, a.nodes) && clone in a.nodes && clone !in acc.merged
             && name in acc.byName
    modifies a, acc.merged
    ensures Grown(a) && r.merged == acc.merged
    ensures var i, more := st.index[name], Members(old(clone.view));
            var g := AddMembers(st.merged[i], more);
            GroupsStand(r, st.(merged := st.merged[i := g],
              conflicts := st.conflicts + ConflictsOn(COMPARED, g, old(clone.view), name, FirstOf(st.first, name),
                                                      source)), a.nodes)
  {
    hide ConflictsOn, AddMembers, Members;
    var found := UnionInto(a, acc.byName[name], clone, name, FirstOf(acc.chosen, name), source);
    UpdatedViews(acc.merged, st.index[name], st.merged);
    r := acc.(conflicts := acc.conflicts + found);
  }

  /** Same name: the members are united in the group that is already there. */
  method UnionInto(a: Arena, existing: YamlNode, clone: YamlNode, name: string, chosen: string, source: string)
    returns (found: seq<Conflict>)
    requires a.Valid() && existing in a.nodes && clone in a.nodes && clone != existing && existing.owner == null
    modifies a, existing
    ensures Grown(a) && existing.owner == null && existing.view == AddMembers(old(existing.view), Members(clone.view))
    ensures found == ConflictsOn(COMPARED, existing.view, clone.view, name, chosen, source)
  {
    hide ConflictsOn, UnionList;
    var have := ReadMembers(existing, "proxies", a.nodes);
    var more := ReadMembers(clone, "proxies", a.nodes);
    var union := UnionMembers(have, more);
    a.WriteMembers(existing, "proxies", union);
    found := CompareAttributes(COMPARED, existing, clone, name, chosen, source, a.nodes);
  }

  lemma AddGroupsSnoc(items: seq<Item>, item: Item)
    ensures AddGroups(items + [item]) == AddGroup(AddGroups(items), item)
  {
    assert (items + [item])[..|items|] == items;
  }

  /** One loop of `MergeProxyGroups` over a list of groups. */
  method MergeGroupList(a: Arena, gs: seq<YamlNode>, own: bool, source: string, acc: GroupAcc,
                        ghost before: seq<Item>, ghost vs: seq<Node>)
    returns (r: GroupAcc)
    requires a.Valid() && ListStands(gs, vs, a.nodes) && GroupsStand(acc, AddGroups(before), a.nodes)
    requires (own ==> source == "own") && Apart(gs, acc.merged)
    modifies a, acc.merged
    ensures Grown(a) && Appended(acc.merged, r.merged)
    ensures GroupsStand(r, AddGroups(before + Items(own, source, vs)), a.nodes)
  {
    hide AddGroup, AddGroups, GroupsStand;
    r := acc;
    ghost var items := Items(own, source, vs);
    assert before + items[..0] == before;
    for i := 0 to |gs|
      invariant Grown(a) && Appended(acc.merged, r.merged) && GroupsStand(r, AddGroups(before + items[..i]), a.nodes)
      invariant ListStands(gs, vs, a.nodes) && Apart(gs, r.merged)
    {
      AddGroupsSnoc(before + items[..i], items[i]);
      assert before + items[..i + 1] == before + items[..i] + [items[i]];
      r := AddOneGroup(a, gs[i], source, r, AddGroups(before + items[..i]), items[i]);
    }
    assert items[..|gs|] == items;
  }

  /** The source loop of `MergeProxyGroups`. */
  method MergeSourceGroups(a: Arena, sources: seq<SourceNodes>, start: GroupAcc, ghost before: seq<Item>,
                           ghost cs: seq<Contribution>, ghost nodes: set<YamlNode>)
    returns (acc: GroupAcc)
    requires a.Valid() && nodes <= a.nodes && Stands(sources, cs, nodes)
             && GroupsStand(start, AddGroups(before), a.nodes)
    requires forall i :: 0 <= i < |start.merged| ==> start.merged[i] !in nodes
    modifies a, start.merged
    ensures Grown(a) && Appended(start.merged, acc.merged)
    ensures GroupsStand(acc, AddGroups(before + GroupItems(cs)), a.nodes)
  {
    hide AddGroups, GroupsStand, Roots, Trees;
    acc := start;
    assert before + GroupItems(cs[..0]) == before;
    for i := 0 to |sources|
      invariant Grown(a) && Appended(start.merged, acc.merged)
                && GroupsStand(acc, AddGroups(before + GroupItems(cs[..i])), a.nodes)
      invariant Stands(sources, cs, nodes) && forall k :: 0 <= k < |acc.merged| ==> acc.merged[k] !in nodes
    {
      ItemsSnoc(cs, i, before);
      assert SourceStands(sources[i], cs[i], nodes);
      assert Apart(sources[i].groups, acc.merged);
      ListStandsMore(sources[i].groups, cs[i].groups, nodes, a.nodes);
      acc := MergeGroupList(a, sources[i].groups, false, sources[i].name, acc, before + GroupItems(cs[..i]),
                            cs[i].groups);
    }
    assert cs[..|cs|] == cs;
  }

  lemma NoGroups()
    ensures AddGroups([]) == GroupMerge([], map[], map[], [])
  {
  }

  /** `MergeProxyGroups` */
  method MergeProxyGroups(a: Arena, own: seq<YamlNode>, sources: seq<SourceNodes>, ghost ownViews: seq<Node>,
                          ghost cs: seq<Contribution>)
    returns (merged: seq<YamlNode>, conflicts: seq<Conflict>)
    requires a.Valid() && ListStands(own, ownViews, a.nodes) && Stands(sources, cs, a.nodes)
    modifies a
    ensures Grown(a) && NewRoots(a, merged)
    ensures var st := MergedGroups(ownViews, cs); Views(merged) == st.merged && conflicts == st.conflicts
  {
    hide Trees, AddGroups, GroupItems, OwnItems, Stands, ListStands;
    NoGroups();
    var acc := MergeGroupList(a, own, true, "own", GroupAcc([], map[], map[], []), [], ownViews);
    assert [] + OwnItems(ownViews) == OwnItems(ownViews);
    acc := MergeSourceGroups(a, sources, acc, OwnItems(ownViews), cs, old(a.nodes));
    merged, conflicts := acc.merged, acc.conflicts;
  }
}
