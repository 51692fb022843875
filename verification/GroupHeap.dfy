/** The generated groups on heap nodes: the selector, the region and the continent groups. */
module GroupHeap {
  import opened Text
  import opened Sorting
  import opened Yaml
  import opened NodeHeap
  import opened Namespace
  import opened MergeNodes
  import opened MergeHeap
  import opened RegionTable
  import opened Regions

  // ----- the selector

  /** The position of the first group called `name`, or the number of groups. */
  method PositionOf(groups: seq<YamlNode>, name: string, ghost nodes: set<YamlNode>) returns (i: nat)
    requires Trees(nodes) && forall k :: 0 <= k < |groups| ==> groups[k] in nodes
    ensures i == FindNamed(Views(groups), name)
  {
    hide GetField, Trees;
    i := 0;
    while i < |groups|
      invariant i <= |groups| && forall k :: 0 <= k < i ==> Name(groups[k].view) != name
    {
      var n := ReadField(groups[i], "name", nodes);
      if n == name { break; }
      i := i + 1;
    }
    ghost var j := FindNamed(Views(groups), name);
    assert j < |groups| ==> Name(groups[j].view) == name;
  }

  /** The member union every pass ends with: `names` join the first group called `name`. */
  method AugmentNamed(a: Arena, groups: seq<YamlNode>, name: string, names: seq<string>) returns (found: bool)
    requires a.Valid() && Roots(groups, a.nodes)
    modifies a, groups
    ensures Grown(a) && Roots(groups, a.nodes)
    ensures Views(groups) == Augment(old(Views(groups)), name, names)
    ensures found <==> FindNamed(old(Views(groups)), name) < |groups|
  {
    hide FindNamed, UnionList, Trees;
    ghost var views := Views(groups);
    var i := PositionOf(groups, name, a.nodes);
    found := i < |groups|;
    if found {
      var have := ReadMembers(groups[i], "proxies", a.nodes);
      var union := UnionMembers(have, names);
      a.WriteMembers(groups[i], "proxies", union);
      UpdatedViews(groups, i, views);
    }
  }

  /** Sets a scalar field of a group under construction. */
  method PutScalar(a: Arena, g: YamlNode, key: string, tag: string, v: string)
    requires a.Valid() && g in a.nodes && g.owner == null
    modifies a, g
    ensures Grown(a) && g in a.nodes && g.owner == null && g.view == SetValue(old(g.view), key, Typed(tag, v))
  {
    hide SetValue, Trees;
    var n := a.NewNode(Scalar, tag, v, [], "");
    a.WriteValue(g, key, n);
  }

  method NewSelector(a: Arena, name: string, members: seq<string>) returns (g: YamlNode)
    requires a.Valid()
    modifies a
    ensures Grown(a) && NewRoot(a, g) && g.view == SelectorNode(name, members)
  {
    hide SetValue, SetMembersOf, Trees;
    g := a.NewNode(Mapping, "!!map", "", [], "");
    PutScalar(a, g, "name", "!!str", name);
    PutScalar(a, g, "type", "!!str", "select");
    a.WriteMembers(g, "proxies", members);
  }

  /** `AppendProxiesGroup` */
  method AppendProxiesGroup(a: Arena, groups: seq<YamlNode>, names: seq<string>, groupName: string)
    returns (r: seq<YamlNode>)
    requires a.Valid() && Roots(groups, a.nodes)
    modifies a, groups
    ensures Grown(a) && Roots(r, a.nodes) && Appended(groups, r)
    ensures Views(r) == WithSelector(old(Views(groups)), names, groupName)
  {
    hide FindNamed, SelectorNode, AddMembers, Trees;
    var name := if groupName == "" then "Proxies" else groupName;
    var found := AugmentNamed(a, groups, name, names);
    if found {
      r := groups;
    } else {
      var g := NewSelector(a, name, names);
      RootsAppend(groups, g, a.nodes);
      r := groups + [g];
    }
  }

  // ----- emission

  method NewStem(a: Arena, name: string, kind: string, members: seq<string>) returns (g: YamlNode)
    requires a.Valid()
    modifies a
    ensures Grown(a) && NewRoot(a, g) && g.view == GroupStem(name, kind, members)
  {
    hide SetValue, SetMembersOf, Trees;
    g := a.NewNode(Mapping, "", "", [], "");
    PutScalar(a, g, "name", "", name);
    PutScalar(a, g, "type", "", kind);
    a.WriteMembers(g, "proxies", members);
  }

  /** `newURLTestGroup` */
  method NewUrlTest(a: Arena, name: string, members: seq<string>, p: HealthParams) returns (g: YamlNode)
    requires a.Valid()
    modifies a
    ensures Grown(a) && NewRoot(a, g) && g.view == UrlTestNode(name, members, p)
  {
    hide SetValue, GroupStem, Trees;
    g := NewStem(a, name, "url-test", members);
    PutScalar(a, g, "url", "", p.url);
    PutScalar(a, g, "interval", "!!int", p.interval);
    PutScalar(a, g, "timeout", "!!int", p.timeout);
    PutScalar(a, g, "max-failed-times", "!!int", p.maxFailed);
    PutScalar(a, g, "lazy", "!!bool", p.lazy);
  }

  /** `newLoadBalanceGroup` */
  method NewLoadBalance(a: Arena, name: string, members: seq<string>, p: HealthParams, strategy: string)
    returns (g: YamlNode)
    requires a.Valid()
    modifies a
    ensures Grown(a) && NewRoot(a, g) && g.view == LoadBalanceNode(name, members, p, strategy)
  {
    hide SetValue, GroupStem, Trees;
    g := NewStem(a, name, "load-balance", members);
    PutScalar(a, g, "url", "", p.url);
    PutScalar(a, g, "interval", "!!int", p.interval);
    PutScalar(a, g, "lazy", "!!bool", p.lazy);
    PutScalar(a, g, "strategy", "", strategy);
    PutScalar(a, g, "timeout", "!!int", p.timeout);
    PutScalar(a, g, "max-failed-times", "!!int", p.maxFailed);
  }

  method EmitPair(a: Arena, key: string, list: seq<string>, prefix: string, lbPrefix: string, p: Params)
    returns (g: YamlNode, lb: YamlNode)
    requires a.Valid()
    modifies a
    ensures Grown(a) && NewRoots(a, [g, lb])
    ensures g.view == UrlTestNode(prefix + key, list, p.urlTest)
            && lb.view == LoadBalanceNode(lbPrefix + key, list, p.balance, p.strategy)
  {
    hide UrlTestNode, LoadBalanceNode, Trees;
    g := NewUrlTest(a, prefix + key, list, p.urlTest);
    lb := NewLoadBalance(a, lbPrefix + key, list, p.balance, p.strategy);
  }

  lemma EmitNothing(members: map<string, seq<string>>, prefix: string, lbPrefix: string, p: Params)
    ensures EmitPairs([], members, prefix, lbPrefix, p) == [] && PairNames([], prefix, lbPrefix) == []
  {
  }

  lemma EmitNext(keys: seq<string>, i: nat, members: map<string, seq<string>>, prefix: string, lbPrefix: string,
                 p: Params)
    requires i < |keys|
    ensures PairNames(keys[..i + 1], prefix, lbPrefix) == PairNames(keys[..i], prefix, lbPrefix)
            + [prefix + keys[i], lbPrefix + keys[i]]
    ensures EmitPairs(keys[..i + 1], members, prefix, lbPrefix, p) == EmitPairs(keys[..i], members, prefix, lbPrefix, p)
            + [UrlTestNode(prefix + keys[i], Lookup(members, keys[i]), p.urlTest),
               LoadBalanceNode(lbPrefix + keys[i], Lookup(members, keys[i]), p.balance, p.strategy)]
  {
    hide UrlTestNode, LoadBalanceNode, Lookup;
    assert keys[..i + 1][..i] == keys[..i];
  }

  /** The emission loop: for each key the url-test group and at once its load-balance sibling. */
  method EmitAllPairs(a: Arena, keys: seq<string>, members: map<string, seq<string>>, prefix: string,
                      lbPrefix: string, p: Params)
    returns (made: seq<YamlNode>, names: seq<string>)
    requires a.Valid()
    modifies a
    ensures Grown(a) && NewRoots(a, made)
    ensures Views(made) == EmitPairs(keys, members, prefix, lbPrefix, p) && names == PairNames(keys, prefix, lbPrefix)
  {
    hide UrlTestNode, LoadBalanceNode, Trees, EmitPairs, PairNames;
    made, names := [], [];
    EmitNothing(members, prefix, lbPrefix, p);
    assert keys[..0] == [];
    for i := 0 to |keys|
      invariant Grown(a) && NewRoots(a, made)
      invariant Views(made) == EmitPairs(keys[..i], members, prefix, lbPrefix, p)
                && names == PairNames(keys[..i], prefix, lbPrefix)
    {
      EmitNext(keys, i, members, prefix, lbPrefix, p);
      var g, lb := EmitPair(a, keys[i], Lookup(members, keys[i]), prefix, lbPrefix, p);
      assert Views(made + [g, lb]) == Views(made) + [g.view, lb.view];
      made, names := made + [g, lb], names + [prefix + keys[i], lbPrefix + keys[i]];
    }
    assert keys[..|keys|] == keys;
  }

  // ----- regions

  lemma UpstreamSnoc(ns: seq<Node>, i: nat)
    requires i < |ns|
    ensures var n := Name(ns[i]);
            UpstreamNames(ns[..i + 1]) == UpstreamNames(ns[..i]) + (if n != "" && n[0] != '_' then [n] else [])
  {
    assert ns[..i + 1][..i] == ns[..i];
  }

  lemma BucketSnoc(names: seq<string>, n: string, want: Option<string>, code: Classifier)
    ensures Bucket(names + [n], want, code) == Bucket(names, want, code) + (if code(n) == want then [n] else [])
    ensures Codes(names + [n], code) == Codes(names, code) + (if code(n).Some? then {code(n).value} else {})
  {
    assert (names + [n])[..|names|] == names;
  }

  lemma {:induction false} NoBucket(names: seq<string>, code: Classifier, cc: string)
    requires cc !in Codes(names, code)
    ensures Bucket(names, Some(cc), code) == []
  {
    CodesLaw(names, code, cc);
  }

  /** What one classified name does to the map of buckets. */
  lemma BucketsSnoc(names: seq<string>, n: string, code: Classifier)
    ensures var m := Buckets(names, code);
            Buckets(names + [n], code) == match code(n) case None => m case Some(cc) => m[cc := Lookup(m, cc) + [n]]
  {
    hide Codes, Bucket;
    var m, m' := Buckets(names, code), Buckets(names + [n], code);
    forall cc ensures Bucket(names + [n], Some(cc), code)
                   == if code(n) == Some(cc) then Bucket(names, Some(cc), code) + [n] else Bucket(names, Some(cc), code)
    { BucketSnoc(names, n, Some(cc), code); }
    BucketSnoc(names, n, None, code);
    if code(n).Some? {
      var cc := code(n).value;
      if cc !in Codes(names, code) { NoBucket(names, code, cc); }
      assert m'.Keys == m.Keys + {cc};
      assert m' == m[cc := Lookup(m, cc) + [n]];
    } else {
      assert m'.Keys == m.Keys;
      assert m' == m;
    }
  }

  /** The classification loop of `AppendRegionGroups`. */
  method Classify(proxies: seq<YamlNode>, code: Classifier, ghost nodes: set<YamlNode>)
    returns (byCode: map<string, seq<string>>, unclassified: seq<string>)
    requires Trees(nodes) && forall k :: 0 <= k < |proxies| ==> proxies[k] in nodes
    ensures byCode == Buckets(UpstreamNames(Views(proxies)), code)
    ensures unclassified == Bucket(UpstreamNames(Views(proxies)), None, code)
  {
    hide GetField, Trees, Buckets, Bucket, UpstreamNames;
    byCode, unclassified := map[], [];
    ghost var vs := Views(proxies);
    NoNames(code);
    assert vs[..0] == [];
    for i := 0 to |proxies|
      invariant byCode == Buckets(UpstreamNames(vs[..i]), code)
                && unclassified == Bucket(UpstreamNames(vs[..i]), None, code)
    {
      UpstreamSnoc(vs, i);
      ghost var names := UpstreamNames(vs[..i]);
      var name := ReadField(proxies[i], "name", nodes);
      if name == "" || name[0] == '_' {
        assert UpstreamNames(vs[..i + 1]) == names;
        continue;
      }
      assert UpstreamNames(vs[..i + 1]) == names + [name];
      BucketsSnoc(names, name, code);
      BucketSnoc(names, name, None, code);
      var cc := code(name);
      if cc.Some? { byCode := byCode[cc.value := Lookup(byCode, cc.value) + [name]]; }
      else { unclassified := unclassified + [name]; }
    }
    assert vs[..|vs|] == vs;
  }

  lemma NoNames(code: Classifier)
    ensures UpstreamNames([]) == [] && Buckets([], code) == map[] && Bucket([], None, code) == []
  {
  }

  lemma {:induction false} EmitSame(keys: seq<string>, m1: map<string, seq<string>>, m2: map<string, seq<string>>,
                                    prefix: string, lbPrefix: string, p: Params)
    requires forall k :: 0 <= k < |keys| ==> Lookup(m1, keys[k]) == Lookup(m2, keys[k])
    ensures EmitPairs(keys, m1, prefix, lbPrefix, p) == EmitPairs(keys, m2, prefix, lbPrefix, p)
  {
    hide UrlTestNode, LoadBalanceNode;
    if keys != [] { EmitSame(keys[..|keys| - 1], m1, m2, prefix, lbPrefix, p); }
  }

  lemma EmitSnoc(keys: seq<string>, key: string, m: map<string, seq<string>>, prefix: string, lbPrefix: string,
                 p: Params)
    ensures EmitPairs(keys + [key], m, prefix, lbPrefix, p) == EmitPairs(keys, m, prefix, lbPrefix, p)
            + EmitPairs([key], m, prefix, lbPrefix, p)
    ensures PairNames(keys + [key], prefix, lbPrefix) == PairNames(keys, prefix, lbPrefix)
            + PairNames([key], prefix, lbPrefix)
  {
    hide UrlTestNode, LoadBalanceNode;
    assert (keys + [key])[..|keys|] == keys;
    assert EmitPairs([key][..0], m, prefix, lbPrefix, p) == [] && PairNames([key][..0], prefix, lbPrefix) == [];
  }

  lemma EmitKnown(names: seq<string>, code: Classifier, prefix: string, lbPrefix: string, p: Params)
    requires Coded(code) && Bucket(names, None, code) == []
    ensures var ccs := SortedKeys(Codes(names, code));
            && EmitPairs(RegionKeys(names, code), RegionMembers(names, code), prefix, lbPrefix, p)
               == EmitPairs(ccs, Buckets(names, code), prefix, lbPrefix, p)
            && PairNames(RegionKeys(names, code), prefix, lbPrefix) == PairNames(ccs, prefix, lbPrefix)
  {
    hide SortedKeys, EmitPairs, PairNames, Bucket, Codes;
    var ccs := SortedKeys(Codes(names, code));
    assert ccs + [] == ccs;
  }

  /** The pairs of the sorted codes followed by the UNKNOWN pair are the pairs of all region keys. */
  lemma EmitKnownAndUnknown(names: seq<string>, code: Classifier, prefix: string, lbPrefix: string, p: Params)
    requires Coded(code) && Bucket(names, None, code) != []
    ensures var ccs, unknown := SortedKeys(Codes(names, code)), map[UNKNOWN := Bucket(names, None, code)];
            && EmitPairs(RegionKeys(names, code), RegionMembers(names, code), prefix, lbPrefix, p)
               == EmitPairs(ccs, Buckets(names, code), prefix, lbPrefix, p)
                 + EmitPairs([UNKNOWN], unknown, prefix, lbPrefix, p)
            && PairNames(RegionKeys(names, code), prefix, lbPrefix)
               == PairNames(ccs, prefix, lbPrefix) + PairNames([UNKNOWN], prefix, lbPrefix)
  {
    hide SortedKeys, EmitPairs, PairNames, Bucket, Codes;
    var ccs, members, unknown := SortedKeys(Codes(names, code)), RegionMembers(names, code),
        map[UNKNOWN := Bucket(names, None, code)];
    CodesAreCoded(names, code);
    forall k | 0 <= k < |ccs| ensures Lookup(members, ccs[k]) == Lookup(Buckets(names, code), ccs[k]) {
      assert ccs[k] in ccs;
    }
    EmitSame(ccs, members, Buckets(names, code), prefix, lbPrefix, p);
    EmitSame([UNKNOWN], members, unknown, prefix, lbPrefix, p);
    EmitSnoc(ccs, UNKNOWN, members, prefix, lbPrefix, p);
  }

  /** The region pairs: the sorted codes, then UNKNOWN if something was left unclassified. */
  method EmitRegions(a: Arena, byCode: map<string, seq<string>>, unclassified: seq<string>, p: Params,
                     ghost upstream: seq<string>, ghost code: Classifier)
    returns (made: seq<YamlNode>, names: seq<string>)
    requires a.Valid() && Coded(code) && byCode == Buckets(upstream, code)
             && unclassified == Bucket(upstream, None, code)
    modifies a
    ensures Grown(a) && NewRoots(a, made)
    ensures Views(made) == EmitPairs(RegionKeys(upstream, code), RegionMembers(upstream, code), REGION, LB_REGION, p)
    ensures names == PairNames(RegionKeys(upstream, code), REGION, LB_REGION)
  {
    hide EmitPairs, PairNames, SortedKeys, Trees, Bucket, Codes, RegionKeys, RegionMembers, Coded, Roots;
    var ccs := SortKeys(byCode.Keys);
    made, names := EmitAllPairs(a, ccs, byCode, REGION, LB_REGION, p);
    if |unclassified| > 0 {
      EmitKnownAndUnknown(upstream, code, REGION, LB_REGION, p);
      ghost var mid := a.nodes;
      var more, moreNames := EmitAllPairs(a, [UNKNOWN], map[UNKNOWN := unclassified], REGION, LB_REGION, p);
      RootsMore(made, mid, a.nodes);
      assert forall n :: n in more ==> n !in made;
      RootsConcat(made, more, a.nodes);
      made, names := made + more, names + moreNames;
    } else {
      EmitKnown(upstream, code, REGION, LB_REGION, p);
    }
  }

  /** The tail both generating passes share. */
  method AppendGenerated(a: Arena, groups: seq<YamlNode>, made: seq<YamlNode>, names: seq<string>, selector: string)
    returns (r: seq<YamlNode>)
    requires a.Valid() && Roots(groups + made, a.nodes)
    modifies a, groups, made
    ensures Grown(a) && Roots(r, a.nodes) && r == groups + made
    ensures Views(r) == WithGenerated(old(Views(groups)), old(Views(made)), names, selector)
  {
    hide Augment, Trees;
    r := groups + made;
    assert Views(r) == Views(groups) + Views(made);
    if |names| > 0 && selector != "" {
      var _ := AugmentNamed(a, r, selector, names);
    }
  }

  /** `AppendRegionGroups` */
  method AppendRegionGroups(a: Arena, groups: seq<YamlNode>, proxies: seq<YamlNode>, selector: string, t: Tables,
                            p: Params)
    returns (r: seq<YamlNode>)
    requires a.Valid() && Roots(groups, a.nodes) && ValidTables(t)
             && forall k :: 0 <= k < |proxies| ==> proxies[k] in a.nodes
    modifies a, groups
    ensures Grown(a) && Roots(r, a.nodes) && Appended(groups, r)
    ensures Views(r) == WithRegions(old(Views(groups)), UpstreamNames(old(Views(proxies))), selector, t, p)
  {
    hide WithGenerated, EmitPairs, PairNames, RegionKeys, RegionMembers, Trees, Buckets, Bucket, ByCountry,
         UpstreamNames;
    CountriesAreCoded(t);
    ghost var upstream := UpstreamNames(Views(proxies));
    var byCode, unclassified := Classify(proxies, ByCountry(t), a.nodes);
    var made, names := EmitRegions(a, byCode, unclassified, p, upstream, ByCountry(t));
    r := AppendGenerated(a, groups, made, names, selector);
  }

  // ----- continents

  lemma RegionScanSnoc(gs: seq<Node>, i: nat)
    requires i < |gs|
    ensures var n := Name(gs[i]);
            && RegionCodesOf(gs[..i + 1]) == RegionCodesOf(gs[..i]) + (if IsRegionName(n) then [n[8..]] else [])
            && RegionListsOf(gs[..i + 1]) == if IsRegionName(n) then RegionListsOf(gs[..i])[n[8..] := Members(gs[i])]
               else RegionListsOf(gs[..i])
  {
    assert gs[..i + 1][..i] == gs[..i];
  }

  /** The scan for region groups in `Build`. */
  method ScanRegions(groups: seq<YamlNode>, ghost nodes: set<YamlNode>)
    returns (codes: seq<string>, lists: map<string, seq<string>>)
    requires Trees(nodes) && forall k :: 0 <= k < |groups| ==> groups[k] in nodes
    ensures codes == RegionCodesOf(Views(groups)) && lists == RegionListsOf(Views(groups))
  {
    hide GetField, Trees, RegionCodesOf, RegionListsOf, MembersOf;
    codes, lists := [], map[];
    ghost var vs := Views(groups);
    NoRegionCodes([]);
    assert vs[..0] == [];
    for i := 0 to |groups|
      invariant codes == RegionCodesOf(vs[..i]) && lists == RegionListsOf(vs[..i])
    {
      RegionScanSnoc(vs, i);
      var name := ReadField(groups[i], "name", nodes);
      if |name| > 8 && name[..8] == REGION {
        var members := ReadMembers(groups[i], "proxies", nodes);
        codes, lists := codes + [name[8..]], lists[name[8..] := members];
      }
    }
    assert vs[..|vs|] == vs;
  }

  /** `byContinent` lists each continent's countries among `ccs`, each once. */
  ghost predicate ByContinentOf(byContinent: map<string, seq<string>>, ccs: seq<string>, at: Classifier) {
    && byContinent.Keys == Codes(ccs, at)
    && forall c :: c in byContinent ==>
         Distinct(byContinent[c]) && forall x :: x in byContinent[c] <==> x in Countries(ccs, c, at)
  }

  lemma CountriesSnoc(ccs: seq<string>, i: nat, cont: string, at: Classifier)
    requires i < |ccs|
    ensures Countries(ccs[..i + 1], cont, at) == Countries(ccs[..i], cont, at)
            + (if at(ccs[i]) == Some(cont) then {ccs[i]} else {})
    ensures Codes(ccs[..i + 1], at) == Codes(ccs[..i], at) + (if at(ccs[i]).Some? then {at(ccs[i]).value} else {})
  {
    assert ccs[..i + 1][..i] == ccs[..i];
  }

  lemma {:induction false} NoCountries(ccs: seq<string>, cont: string, at: Classifier)
    requires cont !in Codes(ccs, at)
    ensures Countries(ccs, cont, at) == {}
  {
    if ccs != [] { NoCountries(ccs[..|ccs| - 1], cont, at); }
  }

  lemma ByContinentStep(m: map<string, seq<string>>, ccs: seq<string>, i: nat, at: Classifier)
    requires i < |ccs| && ByContinentOf(m, ccs[..i], at)
    ensures var cc := ccs[i];
            match at(cc)
            case None => ByContinentOf(m, ccs[..i + 1], at)
            case Some(c) =>
              ByContinentOf(m[c := if cc in Lookup(m, c) then Lookup(m, c) else Lookup(m, c) + [cc]], ccs[..i + 1], at)
  {
    hide Codes, Countries;
    forall c
      ensures Countries(ccs[..i + 1], c, at) == Countries(ccs[..i], c, at)
              + (if at(ccs[i]) == Some(c) then {ccs[i]} else {})
    { CountriesSnoc(ccs, i, c, at); }
    CountriesSnoc(ccs, i, "", at);
    if at(ccs[i]).Some? && at(ccs[i]).value !in m { NoCountries(ccs[..i], at(ccs[i]).value, at); }
  }

  /** The region loop of `AppendContinentGroups`. */
  method GroupByContinent(ccs: seq<string>, at: Classifier) returns (byContinent: map<string, seq<string>>)
    ensures ByContinentOf(byContinent, ccs, at)
  {
    byContinent := map[];
    for i := 0 to |ccs|
      invariant ByContinentOf(byContinent, ccs[..i], at)
    {
      ByContinentStep(byContinent, ccs, i, at);
      var c := at(ccs[i]);
      if c.Some? {
        var have := Lookup(byContinent, c.value);
        byContinent := byContinent[c.value := if ccs[i] in have then have else have + [ccs[i]]];
      }
    }
    assert ccs[..|ccs|] == ccs;
  }

  method Concatenate(ccs: seq<string>, lists: map<string, seq<string>>) returns (r: seq<string>)
    ensures r == ConcatLists(ccs, lists)
  {
    r := [];
    for i := 0 to |ccs|
      invariant r == ConcatLists(ccs[..i], lists)
    {
      assert ccs[..i + 1][..i] == ccs[..i];
      r := r + Lookup(lists, ccs[i]);
    }
    assert ccs[..|ccs|] == ccs;
  }

  /** Each continent's members: its regions in code order, each region's list in its own order. */
  method OrderMembers(conts: seq<string>, byContinent: map<string, seq<string>>, lists: map<string, seq<string>>,
                      ghost ccs: seq<string>, at: Classifier)
    returns (members: map<string, seq<string>>)
    requires ByContinentOf(byContinent, ccs, at) && forall k :: 0 <= k < |conts| ==> conts[k] in byContinent
    ensures forall k :: 0 <= k < |conts| ==>
              Lookup(members, conts[k]) == Lookup(ContinentMembers(ccs, lists, at), conts[k])
  {
    hide SortedKeys, SortStrings, Codes, Countries, ConcatLists;
    members := map[];
    for i := 0 to |conts|
      invariant forall k :: 0 <= k < i ==>
                  Lookup(members, conts[k]) == Lookup(ContinentMembers(ccs, lists, at), conts[k])
    {
      var regions := SortStrings(byContinent[conts[i]]);
      SortedKeysAnyOrder(Countries(ccs, conts[i], at), byContinent[conts[i]]);
      var list := Concatenate(regions, lists);
      members := members[conts[i] := list];
    }
  }

  /** The continent pairs, in ascending order of the codes. */
  method EmitContinents(a: Arena, ccs: seq<string>, lists: map<string, seq<string>>, code: Classifier, p: Params)
    returns (made: seq<YamlNode>, names: seq<string>)
    requires a.Valid()
    modifies a
    ensures Grown(a) && NewRoots(a, made)
    ensures var keys := SortedKeys(Codes(ccs, code));
            && Views(made) == EmitPairs(keys, ContinentMembers(ccs, lists, code), CONTINENT, LB_CONTINENT, p)
            && names == PairNames(keys, CONTINENT, LB_CONTINENT)
  {
    hide EmitPairs, PairNames, Trees, SortedKeys, ContinentMembers, Codes, Lookup;
    var byContinent := GroupByContinent(ccs, code);
    var conts := SortKeys(byContinent.Keys);
    assert forall k :: 0 <= k < |conts| ==> conts[k] in conts;
    var members := OrderMembers(conts, byContinent, lists, ccs, code);
    EmitSame(conts, members, ContinentMembers(ccs, lists, code), CONTINENT, LB_CONTINENT, p);
    made, names := EmitAllPairs(a, conts, members, CONTINENT, LB_CONTINENT, p);
  }

  /** `AppendContinentGroups` */
  method AppendContinentGroups(a: Arena, groups: seq<YamlNode>, ccs: seq<string>, lists: map<string, seq<string>>,
                               selector: string, t: Tables, p: Params)
    returns (r: seq<YamlNode>)
    requires a.Valid() && Roots(groups, a.nodes) && ccs == RegionCodesOf(Views(groups))
             && lists == RegionListsOf(Views(groups))
    modifies a, groups
    ensures Grown(a) && Roots(r, a.nodes) && Appended(groups, r)
    ensures Views(r) == WithContinents(old(Views(groups)), selector, t, p)
  {
    hide WithGenerated, EmitPairs, PairNames, Trees, SortedKeys, RegionCodesOf, RegionListsOf, ByContinent,
         ContinentMembers, Codes, Roots;
    ghost var before := a.nodes;
    var made, names := EmitContinents(a, ccs, lists, ByContinent(t), p);
    RootsMore(groups, before, a.nodes);
    assert forall n :: n in made ==> n !in groups;
    RootsConcat(groups, made, a.nodes);
    r := AppendGenerated(a, groups, made, names, selector);
  }
}
