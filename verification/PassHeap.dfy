/** Fan-out, pruning and rule-providers on heap nodes. */
module PassHeap {
  import opened Text
  import opened Yaml
  import opened NodeHeap
  import opened RuleLine
  import opened Namespace
  import opened MergeNodes
  import opened RuleMerge
  import opened RuleProviders
  import opened MergeHeap
  import opened GroupHeap
  import opened Regions
  import opened Fanout
  import opened Prune

  // ----- fan-out

  method CollectTargets(groups: seq<YamlNode>, ghost nodes: set<YamlNode>) returns (targets: seq<string>)
    requires Trees(nodes) && forall k :: 0 <= k < |groups| ==> groups[k] in nodes
    ensures targets == TargetNames(Views(groups))
  {
    hide GetField, Trees, IsTarget;
    targets := [];
    ghost var vs := Views(groups);
    for i := 0 to |groups|
      invariant targets == TargetNames(vs[..i])
    {
      assert vs[..i + 1][..i] == vs[..i];
      var name := ReadField(groups[i], "name", nodes);
      if IsTarget(name) { targets := targets + [name]; }
    }
    assert vs[..|vs|] == vs;
  }

  method MakeCopy(a: Arena, own: YamlNode, name: string, dialer: string) returns (c: YamlNode)
    requires a.Valid() && own in a.nodes
    modifies a
    ensures Grown(a) && NewRoot(a, c) && c.view == Copy(own.view, name, dialer)
  {
    hide SetValue, Trees;
    c := a.Clone(own, a.nodes);
    PutScalar(a, c, "name", "!!str", name);
    PutScalar(a, c, "dialer-proxy", "!!str", dialer);
  }

  lemma FirstCopy(own: Node, targets: seq<string>, selector: string)
    ensures CopiesOf(own, targets, selector)[..1] == [Copy(own, ViaName("AUTO", StripUnderscore(Name(own))), selector)]
  {
  }

  lemma NextCopy(own: Node, targets: seq<string>, selector: string, j: nat)
    requires j < |targets|
    ensures var want, name := CopiesOf(own, targets, selector), StripUnderscore(Name(own));
            want[..j + 2] == want[..j + 1] + [Copy(own, ViaName(StripUnderscore(targets[j]), name), targets[j])]
  {
    hide Copy, Name, ViaName, StripUnderscore;
    SliceStep(CopiesOf(own, targets, selector), j + 1);
  }

  /** The copies of one own proxy: AUTO first, then the targets in order. */
  method CopyOwn(a: Arena, own: YamlNode, name: string, targets: seq<string>, selector: string)
    returns (cs: seq<YamlNode>)
    requires a.Valid() && own in a.nodes && name == Name(own.view)
    modifies a
    ensures Grown(a) && NewRoots(a, cs) && Views(cs) == CopiesOf(own.view, targets, selector)
  {
    hide Trees, Copy, Name, ViaName, StripUnderscore, CopiesOf;
    ghost var want := CopiesOf(own.view, targets, selector);
    FirstCopy(own.view, targets, selector);
    var stripped := StripUnderscore(name);
    var auto := MakeCopy(a, own, ViaName("AUTO", stripped), selector);
    cs := [auto];
    for j := 0 to |targets|
      invariant Grown(a) && NewRoots(a, cs) && Views(cs) == want[..j + 1]
    {
      var c := MakeCopy(a, own, ViaName(StripUnderscore(targets[j]), stripped), targets[j]);
      assert c !in cs;
      RootsAppend(cs, c, a.nodes);
      NextCopy(own.view, targets, selector, j);
      cs := cs + [c];
    }
  }

  lemma CopiesSnoc(owns: seq<Node>, i: nat, targets: seq<string>, selector: string)
    requires i < |owns|
    ensures Copies(owns[..i + 1], targets, selector)
         == Copies(owns[..i], targets, selector)
            + (if Eligible(owns[i]) then CopiesOf(owns[i], targets, selector) else [])
    ensures SkippedOwns(owns[..i + 1]) == SkippedOwns(owns[..i]) + (if HasDialer(owns[i]) then 1 else 0)
  {
    assert owns[..i + 1][..i] == owns[..i];
  }

  /** The body of the fan-out loop: nothing for an unnamed proxy or one with its own dialer. */
  method FanOne(a: Arena, own: YamlNode, targets: seq<string>, selector: string) returns (cs: seq<YamlNode>, skip: bool)
    requires a.Valid() && own in a.nodes
    modifies a
    ensures Grown(a) && NewRoots(a, cs)
    ensures Views(cs) == (if Eligible(own.view) then CopiesOf(own.view, targets, selector) else [])
            && (skip <==> HasDialer(own.view))
  {
    hide Trees, CopiesOf, GetField;
    cs, skip := [], false;
    var kind := ReadKind(own, a.nodes);
    if kind != Mapping { return; }
    var name := ReadField(own, "name", a.nodes);
    if name == "" { return; }
    var dialer := ReadField(own, "dialer-proxy", a.nodes);
    if dialer != "" { return [], true; }
    cs := CopyOwn(a, own, name, targets, selector);
  }

  /** `AppendFanoutProxies` */
  method AppendFanoutProxies(a: Arena, owns: seq<YamlNode>, groups: seq<YamlNode>, selectorName: string)
    returns (copies: seq<YamlNode>, skipped: nat)
    requires a.Valid() && (forall k :: 0 <= k < |owns| ==> owns[k] in a.nodes)
             && (forall k :: 0 <= k < |groups| ==> groups[k] in a.nodes)
    modifies a
    ensures Grown(a) && NewRoots(a, copies)
    ensures Views(copies) == FanoutProxies(Views(owns), Views(groups), selectorName)
            && skipped == SkippedOwns(Views(owns))
  {
    hide Trees, CopiesOf, Copies, SkippedOwns, TargetNames, Eligible, HasDialer;
    var selector := if selectorName == "" then "Proxies" else selectorName;
    var targets := CollectTargets(groups, a.nodes);
    copies, skipped := [], 0;
    ghost var vs := Views(owns);
    NoCopies(targets, selector);
    assert vs[..0] == [];
    for i := 0 to |owns|
      invariant Grown(a) && NewRoots(a, copies)
      invariant Views(copies) == Copies(vs[..i], targets, selector) && skipped == SkippedOwns(vs[..i])
    {
      CopiesSnoc(vs, i, targets, selector);
      var cs, skip := FanOne(a, owns[i], targets, selector);
      RootsConcat(copies, cs, a.nodes);
      copies := copies + cs;
      if skip { skipped := skipped + 1; }
    }
    assert vs[..|vs|] == vs;
  }

  lemma NoCopies(targets: seq<string>, selector: string)
    ensures Copies([], targets, selector) == [] && SkippedOwns([]) == 0
  {
  }

  method ReadKind(n: YamlNode, ghost nodes: set<YamlNode>) returns (k: Kind)
    requires Trees(nodes) && n in nodes
    ensures k == n.view.kind
  {
    assert Linked(n, nodes);
    k := n.kind;
  }

  // ----- pruning

  lemma KeepOne(kept: seq<YamlNode>, groups: seq<YamlNode>, i: nat, nodes: set<YamlNode>)
    requires Roots(groups, nodes) && Roots(kept, nodes) && i < |groups| && forall n :: n in kept ==> n in groups[..i]
    ensures Roots(kept + [groups[i]], nodes) && Views(kept + [groups[i]]) == Views(kept) + [groups[i].view]
    ensures forall n :: n in kept + [groups[i]] ==> n in groups[..i + 1]
  {
    assert groups[..i + 1] == groups[..i] + [groups[i]];
    assert groups[i] !in groups[..i];
    RootsAppend(kept, groups[i], nodes);
  }

  /** Pass 1: the groups that stay, and the names of those that go. */
  method SplitEmpty(groups: seq<YamlNode>, selector: string, fallback: string, ghost nodes: set<YamlNode>)
    returns (kept: seq<YamlNode>, removed: seq<string>)
    requires Trees(nodes) && Roots(groups, nodes)
    ensures var vs := Views(groups);
            && Views(kept) == Survivors(vs, vs, selector, fallback)
               && removed == RemovedNames(vs, vs, selector, fallback)
    ensures Roots(kept, nodes) && forall n :: n in kept ==> n in groups
  {
    hide GetField, MembersOf, Trees, Survivors, RemovedNames, FindNamed;
    ghost var vs := Views(groups);
    var selectorName := if selector == "" then "Proxies" else selector;
    var at := PositionOf(groups, fallback, nodes);
    kept, removed := [], [];
    NobodyYet(vs, selector, fallback);
    assert vs[..0] == [];
    for i := 0 to |groups|
      invariant Views(kept) == Survivors(vs[..i], vs, selector, fallback)
                && removed == RemovedNames(vs[..i], vs, selector, fallback)
      invariant Roots(kept, nodes) && forall n :: n in kept ==> n in groups[..i]
    {
      SurvivorsSnoc(vs, i, vs, selector, fallback);
      var name := ReadField(groups[i], "name", nodes);
      var members := ReadMembers(groups[i], "proxies", nodes);
      var isProtected := name == selectorName || (name == fallback && at < |groups|);
      if !isProtected && |members| == 0 {
        removed := removed + [name];
        assert groups[..i + 1] == groups[..i] + [groups[i]];
      } else {
        KeepOne(kept, groups, i, nodes);
        kept := kept + [groups[i]];
      }
    }
    assert vs[..|vs|] == vs && groups[..|groups|] == groups;
  }

  lemma KeptSnoc(members: seq<string>, i: nat, gone: set<string>)
    requires i < |members|
    ensures KeptMembers(members[..i + 1], gone) == KeptMembers(members[..i], gone)
            + (if members[i] in gone then [] else [members[i]])
  {
    assert members[..i + 1][..i] == members[..i];
  }

  /** The member loop of pass 2. */
  method KeepMembers(members: seq<string>, gone: set<string>) returns (kept: seq<string>, changed: bool)
    ensures kept == KeptMembers(members, gone) && (changed <==> kept != members)
  {
    hide KeptMembers;
    kept, changed := [], false;
    NothingKeptYet(gone);
    assert members[..0] == [];
    for i := 0 to |members|
      invariant kept == KeptMembers(members[..i], gone)
      invariant if changed then |kept| < i else kept == members[..i]
    {
      KeptSnoc(members, i, gone);
      if members[i] in gone { changed := true; } else { kept := kept + [members[i]]; }
    }
    assert members[..|members|] == members;
  }

  lemma NothingKeptYet(gone: set<string>)
    ensures KeptMembers([], gone) == []
  {
  }

  method CleanOne(a: Arena, g: YamlNode, gone: set<string>)
    requires a.Valid() && g in a.nodes && g.owner == null
    modifies a, g
    ensures Grown(a) && g.owner == null && g.view == CleanGroup(old(g.view), gone)
  {
    hide Trees, KeptMembers, MembersOf, SetMembersOf;
    var members := ReadMembers(g, "proxies", a.nodes);
    var kept, changed := KeepMembers(members, gone);
    if changed { a.WriteMembers(g, "proxies", kept); }
  }

  /** Pass 2: members that name removed groups go, in place. */
  method CleanAll(a: Arena, groups: seq<YamlNode>, gone: set<string>)
    requires a.Valid() && Roots(groups, a.nodes)
    modifies a, groups
    ensures Grown(a) && Roots(groups, a.nodes) && Views(groups) == CleanGroups(old(Views(groups)), gone)
  {
    hide Trees, CleanGroup;
    ghost var vs := Views(groups);
    for i := 0 to |groups|
      invariant Grown(a) && Roots(groups, a.nodes)
      invariant forall k :: 0 <= k < |groups| ==> groups[k].view == if k < i then CleanGroup(vs[k], gone) else vs[k]
    {
      CleanOne(a, groups[i], gone);
    }
  }

  lemma RetargetsSnoc(rules: seq<string>, i: nat, gone: set<string>, fallback: string)
    requires i < |rules|
    ensures Retargets(rules[..i + 1], gone, fallback) == Retargets(rules[..i], gone, fallback) +
              var t := Target(rules[i]); if t.Some? && t.value in gone then [Retargeting(i, t.value, fallback)] else []
  {
    hide Target;
    assert rules[..i + 1][..i] == rules[..i];
  }

  /** Pass 3: rules that name removed groups are spliced onto the fallback. */
  method RetargetAll(rules: seq<string>, gone: set<string>, fallback: string)
    returns (rs: seq<string>, retargets: seq<Retargeting>)
    ensures rs == PruneRules(rules, gone, fallback) && retargets == Retargets(rules, gone, fallback)
  {
    hide Target, Retarget, Retargets;
    rs, retargets := rules, [];
    NoRetargets(gone, fallback);
    assert rules[..0] == [];
    for i := 0 to |rules|
      invariant |rs| == |rules| && retargets == Retargets(rules[..i], gone, fallback)
      invariant forall k :: 0 <= k < |rules| ==>
                  rs[k] == if k < i then PruneRule(rules[k], gone, fallback) else rules[k]
    {
      RetargetsSnoc(rules, i, gone, fallback);
      var rule := rs[i];
      var target, start, end, ok := FindTarget(rule);
      if !ok || target !in gone { continue; }
      rs := rs[i := rule[..start] + fallback + rule[end..]];
      retargets := retargets + [Retargeting(i, target, fallback)];
    }
    assert rules[..|rules|] == rules;
  }

  lemma NoRetargets(gone: set<string>, fallback: string)
    ensures Retargets([], gone, fallback) == []
  {
  }

  /** `PruneEmptyProxyGroups`: surviving groups are cleaned in place, rules in a new slice. */
  method PruneEmptyProxyGroups(a: Arena, groups: seq<YamlNode>, rules: seq<string>, selector: string, fallback: string)
    returns (kept: seq<YamlNode>, prunedRules: seq<string>, removed: seq<string>, retargets: seq<Retargeting>)
    requires a.Valid() && Roots(groups, a.nodes)
    modifies a, groups
    ensures Grown(a) && Roots(kept, a.nodes) && forall n :: n in kept ==> n in groups
    ensures Pruned(Views(kept), prunedRules, removed, retargets)
            == PruneGroups(old(Views(groups)), rules, selector, fallback)
  {
    hide Trees, Survivors, RemovedNames, CleanGroups, PruneRules, Retargets;
    kept, removed := SplitEmpty(groups, selector, fallback, a.nodes);
    if |removed| == 0 {
      kept, prunedRules, retargets := groups, rules, [];
      return;
    }
    var gone := ToSet(removed);
    assert forall k :: 0 <= k < |kept| ==> kept[k] in kept && kept[k] in groups;
    CleanAll(a, kept, gone);
    prunedRules, retargets := RetargetAll(rules, gone, fallback);
  }

  // ----- rule-providers

  /** A provider definition, cloned and namespaced. */
  method CloneProvider(a: Arena, v: YamlNode, source: string, key: string, ghost nodes: set<YamlNode>)
    returns (c: YamlNode)
    requires a.Valid() && Trees(nodes) && v in nodes
    modifies a
    ensures Grown(a) && NewRoot(a, c) && c.view == ProviderValue(source, key, v.view)
  {
    hide Trees, GetField, SetField, DistinctPath;
    c := a.Clone(v, nodes);
    var path := ReadField(c, "path", a.nodes);
    if path != "" { var _ := a.WriteField(c, "path", DistinctPath(path, key)); }
    var px := ReadField(c, "proxy", a.nodes);
    if px != "" && px !in BUILTINS { var _ := a.WriteField(c, "proxy", source + "_" + px); }
  }

  method ClonePair(a: Arena, k: YamlNode, v: YamlNode, source: string, ghost nodes: set<YamlNode>)
    returns (key: YamlNode, value: YamlNode)
    requires a.Valid() && Trees(nodes) && k in nodes && v in nodes
    modifies a
    ensures Grown(a) && NewRoots(a, [key, value])
    ensures key.view == ProviderKey(source, k.view)
            && value.view == ProviderValue(source, ProviderKey(source, k.view).value, v.view)
  {
    hide Trees, ProviderValue;
    key := a.Clone(k, nodes);
    var name := ReadScalar(k, nodes);
    a.Relabel(key, source + "_" + name);
    value := CloneProvider(a, v, source, source + "_" + name, nodes);
  }

  method ReadScalar(n: YamlNode, ghost nodes: set<YamlNode>) returns (v: string)
    requires Trees(nodes) && n in nodes
    ensures v == n.view.value
  {
    assert Linked(n, nodes);
    v := n.value;
  }

  /** `RewriteSourceRuleProviders`: nothing for an absent block or one that is no mapping. */
  method RewriteSourceRuleProviders(a: Arena, source: string, rp: Option<YamlNode>, ghost nodes: set<YamlNode>)
    returns (out: Option<YamlNode>, skipped: seq<string>)
    requires a.Valid() && Trees(nodes) && (rp.Some? ==> rp.value in nodes)
    modifies a
    ensures Grown(a) && (out.Some? <==> rp.Some? && rp.value.view.kind == Mapping)
    ensures out.Some? ==> NewRoot(a, out.value) && out.value.view == NamespacedProviders(source, rp.value.view)
    ensures skipped == if out.Some? then SkippedProviders(rp.value.view.content, |rp.value.view.content| / 2) else []
  {
    hide Trees, ProviderValue, ProviderKey;
    out, skipped := None, [];
    if rp.None? { return; }
    var kind := ReadKind(rp.value, nodes);
    if kind != Mapping { return; }
    var kids: seq<YamlNode>;
    kids, skipped := ClonePairs(a, source, rp.value, nodes);
    var n := a.NewNode(Mapping, "!!map", "", kids, "");
    out := Some(n);
  }

  lemma PairsStep(source: string, c: seq<Node>, n: nat)
    requires 2 * n + 1 < |c|
    ensures ProviderPairs(source, c, n + 1)
         == ProviderPairs(source, c, n) + ProviderPair(source, c[2 * n], c[2 * n + 1])
    ensures SkippedProviders(c, n + 1) == SkippedProviders(c, n)
            + (if c[2 * n + 1].kind == Mapping then [] else [c[2 * n].value])
  {
    hide ProviderPair;
    assert 2 * (n + 1) - 2 == 2 * n && n + 1 - 1 == n;
  }

  method CloneOnePair(a: Arena, source: string, k: YamlNode, v: YamlNode, ghost nodes: set<YamlNode>)
    returns (pair: seq<YamlNode>, skip: seq<string>)
    requires a.Valid() && Trees(nodes) && k in nodes && v in nodes
    modifies a
    ensures Grown(a) && NewRoots(a, pair) && Views(pair) == ProviderPair(source, k.view, v.view)
    ensures skip == if v.view.kind == Mapping then [] else [k.view.value]
  {
    hide Trees, ProviderValue, ProviderKey;
    var kind := ReadKind(v, nodes);
    if kind != Mapping {
      var name := ReadScalar(k, nodes);
      return [], [name];
    }
    var key, value := ClonePair(a, k, v, source, nodes);
    pair, skip := [key, value], [];
  }

  method ClonePairs(a: Arena, source: string, rp: YamlNode, ghost nodes: set<YamlNode>)
    returns (kids: seq<YamlNode>, skipped: seq<string>)
    requires a.Valid() && Trees(nodes) && rp in nodes
    modifies a
    ensures Grown(a) && NewRoots(a, kids)
    ensures Views(kids) == ProviderPairs(source, rp.view.content, |rp.view.content| / 2)
    ensures skipped == SkippedProviders(rp.view.content, |rp.view.content| / 2)
  {
    hide Trees, ProviderPair, ProviderPairs, SkippedProviders;
    kids, skipped := [], [];
    ghost var c := rp.view.content;
    NoPairs(source, c);
    assert Linked(rp, nodes) by { Member(rp, nodes); }
    for n := 0 to |rp.content| / 2
      invariant Grown(a) && NewRoots(a, kids) && Linked(rp, nodes)
      invariant Views(kids) == ProviderPairs(source, c, n) && skipped == SkippedProviders(c, n)
    {
      PairsStep(source, c, n);
      var k, v := rp.content[2 * n], rp.content[2 * n + 1];
      assert k.view == c[2 * n] && v.view == c[2 * n + 1];
      ghost var before := a.nodes;
      var pair, skip := CloneOnePair(a, source, k, v, nodes);
      RootsMore(kids, before, a.nodes);
      assert forall m :: m in pair ==> m !in kids;
      RootsConcat(kids, pair, a.nodes);
      kids, skipped := kids + pair, skipped + skip;
    }
  }

  lemma NoPairs(source: string, c: seq<Node>)
    ensures ProviderPairs(source, c, 0) == [] && SkippedProviders(c, 0) == []
  {
  }

  lemma Member(n: YamlNode, nodes: set<YamlNode>)
    requires Trees(nodes) && n in nodes
    ensures Linked(n, nodes)
  {
  }

  lemma KeysStep(c: seq<Node>, n: nat)
    requires 2 * n + 1 < |c|
    ensures PairKeys(c, n + 1) == PairKeys(c, n) + {c[2 * n].value}
  {
  }

  /** `ruleProviderKeys` */
  method ReadProviderKeys(rp: YamlNode, ghost nodes: set<YamlNode>) returns (keys: set<string>)
    requires Trees(nodes) && rp in nodes
    ensures keys == ProviderKeys(Some(rp.view))
  {
    hide PairKeys, Trees;
    keys := {};
    var kind := ReadKind(rp, nodes);
    if kind != Mapping { return; }
    ghost var c := rp.view.content;
    assert PairKeys(c, 0) == {} by { NoKeys(c); }
    Member(rp, nodes);
    for n := 0 to |rp.content| / 2
      invariant keys == PairKeys(c, n)
    {
      KeysStep(c, n);
      var k := ReadScalar(rp.content[2 * n], nodes);
      keys := keys + {k};
    }
  }

  lemma NoKeys(c: seq<Node>)
    ensures PairKeys(c, 0) == {}
  {
  }

  lemma WantedStep(c: seq<Node>, n: nat, wanted: set<string>)
    requires 2 * n + 1 < |c|
    ensures WantedPairs(c, n + 1, wanted) == WantedPairs(c, n, wanted)
            + (if c[2 * n].value in wanted then [c[2 * n], c[2 * n + 1]] else [])
  {
  }

  lemma KeepPair(kept: seq<YamlNode>, c: seq<YamlNode>, n: nat, nodes: set<YamlNode>)
    requires Roots(c, nodes) && Roots(kept, nodes) && 2 * n + 1 < |c| && forall m :: m in kept ==> m in c[..2 * n]
    ensures var r := kept + [c[2 * n], c[2 * n + 1]];
            && Roots(r, nodes) && Views(r) == Views(kept) + [c[2 * n].view, c[2 * n + 1].view]
               && forall m :: m in r ==> m in c[..2 * n + 2]
  {
    KeepOne(kept, c, 2 * n, nodes);
    KeepOne(kept + [c[2 * n]], c, 2 * n + 1, nodes);
    assert kept + [c[2 * n]] + [c[2 * n + 1]] == kept + [c[2 * n], c[2 * n + 1]];
  }

  /** The pair loop of `MergeRuleProviders`. */
  method SelectPairs(c: seq<YamlNode>, wanted: set<string>, ghost nodes: set<YamlNode>) returns (kept: seq<YamlNode>)
    requires Trees(nodes) && Roots(c, nodes)
    ensures Views(kept) == WantedPairs(Views(c), |c| / 2, wanted)
    ensures Roots(kept, nodes) && forall m :: m in kept ==> m in c
  {
    hide Trees, WantedPairs;
    kept := [];
    assert WantedPairs(Views(c), 0, wanted) == [] by { NothingWanted(Views(c), wanted); }
    for n := 0 to |c| / 2
      invariant Views(kept) == WantedPairs(Views(c), n, wanted)
      invariant Roots(kept, nodes) && forall m :: m in kept ==> m in c[..2 * n]
    {
      WantedStep(Views(c), n, wanted);
      var key := ReadScalar(c[2 * n], nodes);
      if key in wanted {
        KeepPair(kept, c, n, nodes);
        kept := kept + [c[2 * n], c[2 * n + 1]];
      } else {
        assert c[..2 * n + 2] == c[..2 * n] + [c[2 * n], c[2 * n + 1]];
      }
    }
  }

  lemma NothingWanted(c: seq<Node>, wanted: set<string>)
    ensures WantedPairs(c, 0, wanted) == []
  {
  }

  lemma WantedOfStep(ps: seq<Node>, i: nat, wanted: set<string>)
    requires i < |ps|
    ensures WantedOf(ps[..i + 1], wanted)
         == WantedOf(ps[..i], wanted) + (if ps[i].kind == Mapping
           then WantedPairs(ps[i].content, |ps[i].content| / 2, wanted) else [])
  {
    assert ps[..i + 1][..i] == ps[..i];
  }

  /** One source's definitions: its mapping node is given up, its wanted pairs move on. */
  method TakePairs(a: Arena, src: YamlNode, wanted: set<string>, kept: seq<YamlNode>) returns (r: seq<YamlNode>)
    requires a.Valid() && src in a.nodes && src.owner == null && src.view.kind == Mapping && Roots(kept, a.nodes)
             && src !in kept
    modifies a, a.nodes`owner
    ensures a.Valid() && a.nodes == old(a.nodes) - {src} && Roots(r, a.nodes)
    ensures forall n :: n in a.nodes ==> n.owner == old(n.owner) || n.owner == null
    ensures Views(r) == Views(kept) + WantedPairs(src.view.content, |src.view.content| / 2, wanted)
    ensures forall n :: n in r ==> n in kept || old(n.owner) == src
  {
    hide Trees, WantedPairs;
    Member(src, a.nodes);
    assert Views(src.content) == src.view.content;
    assert forall n :: n in src.content ==> n.owner == src && n !in kept;
    a.Dissolve(src);
    assert forall n :: n in src.content ==> n.owner == null;
    assert Views(src.content) == src.view.content;
    var mine := SelectPairs(src.content, wanted, a.nodes);
    RootsConcat(kept, mine, a.nodes);
    r := kept + mine;
  }

  lemma TailRoots(ps: seq<YamlNode>, i: nat, nodes: set<YamlNode>)
    requires i < |ps| && Roots(ps[i..], nodes)
    ensures ps[i] in nodes && ps[i].owner == null && Roots(ps[i + 1..], nodes - {ps[i]})
  {
    var r, t := ps[i..], ps[i + 1..];
    assert forall k :: 0 <= k < |t| ==> t[k] == r[k + 1];
    assert r[0] == ps[i];
  }

  /** The source loop of `MergeRuleProviders`: what is no mapping is passed over. */
  method GatherPairs(a: Arena, ps: seq<YamlNode>, wanted: set<string>) returns (kept: seq<YamlNode>)
    requires a.Valid() && Roots(ps, a.nodes)
    modifies a, a.nodes`owner
    ensures a.Valid() && a.nodes <= old(a.nodes) && Roots(kept, a.nodes)
            && Views(kept) == WantedOf(old(Views(ps)), wanted)
    ensures forall n :: n in old(a.nodes) && n !in ps ==> n in a.nodes
    ensures forall n :: n in a.nodes ==> n.owner == old(n.owner) || n.owner == null
    ensures forall n :: n in kept ==> old(n.owner) != null
  {
    hide Trees, WantedPairs, WantedOf;
    kept := [];
    ghost var vs := Views(ps);
    assert WantedOf(vs[..0], wanted) == [] by { NobodyWanted(vs, wanted); }
    for i := 0 to |ps|
      invariant a.Valid() && a.nodes <= old(a.nodes) && Roots(kept, a.nodes) && Views(kept) == WantedOf(vs[..i], wanted)
      invariant Roots(ps[i..], a.nodes) && forall k :: i <= k < |ps| ==> ps[k] !in kept
      invariant forall n :: n in old(a.nodes) && n !in ps ==> n in a.nodes
      invariant forall n :: n in a.nodes ==> n.owner == old(n.owner) || n.owner == null
      invariant forall n :: n in kept ==> old(n.owner) != null
    {
      WantedOfStep(vs, i, wanted);
      assert ps[i..][0] == ps[i];
      assert forall k :: i < k < |ps| ==> ps[k] == ps[i..][k - i] == ps[i + 1..][k - i - 1];
      TailRoots(ps, i, a.nodes);
      var kind := ReadKind(ps[i], a.nodes);
      if kind == Mapping { kept := TakePairs(a, ps[i], wanted, kept); }
    }
    assert vs[..|vs|] == vs;
  }

  /** `MergeRuleProviders`: the mappings it is given are used up, every other node stays. */
  method MergeRuleProviders(a: Arena, ps: seq<YamlNode>, wanted: set<string>) returns (out: Option<YamlNode>)
    requires a.Valid() && Roots(ps, a.nodes)
    modifies a, a.nodes`owner, a.nodes`slot
    ensures a.Valid() && fresh(a.nodes - old(a.nodes)) && (out.Some? ==> NewRoot(a, out.value))
    ensures forall n :: n in old(a.nodes) && n !in ps ==> n in a.nodes && (old(n.owner) == null ==> n.owner == null)
    ensures (if out.Some? then Some(out.value.view) else None) == MergedProviders(old(Views(ps)), wanted)
  {
    hide Trees, WantedOf;
    var kept := GatherPairs(a, ps, wanted);
    out := None;
    if |kept| > 0 {
      ghost var vs := Views(kept);
      var n := a.NewNode(Mapping, "!!map", "", kept, "");
      assert Views(kept) == vs;
      out := Some(n);
    }
  }

  lemma NobodyWanted(vs: seq<Node>, wanted: set<string>)
    ensures WantedOf(vs[..0], wanted) == []
  {
  }
}
