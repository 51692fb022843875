/** `Pipeline.Build` as a composition of passes over values, and what the whole composition
    guarantees about references, routing and rule-providers. */
module Pipeline {
  import opened Text
  import opened Sorting
  import opened Yaml
  import opened RuleLine
  import opened Subscriptions
  import opened Namespace
  import opened MergeNodes
  import opened RuleMerge
  import opened RuleProviders
  import opened RegionTable
  import opened Regions
  import opened Fanout
  import opened Prune

  /** What `Build` reads: the table, the cached documents by source name, the operator's files. */
  datatype Input = Input(rows: seq<Row>, docs: map<string, Node>, ownProxies: seq<Node>, ownGroups: seq<Node>,
                         customs: seq<Contributor>, selector: string, fallback: string, tables: Tables, params: Params)

  datatype Config = Config(proxies: seq<Node>, groups: seq<Node>, rules: MergedRules, providers: Option<Node>,
                           collisions: seq<Collision>, conflicts: seq<Conflict>)

  // ----- reading the sources

  function EnabledRows(rows: seq<Row>): (r: seq<Row>) {
    if rows == [] then [] else
      EnabledRows(rows[..|rows| - 1]) + (if rows[|rows| - 1].enable then [rows[|rows| - 1]] else [])
  }

  predicate HigherPriority(a: Row, b: Row) { a.priority > b.priority }

  /** `sortSourcesByPriority` */
  function SortedRows(rows: seq<Row>): (r: seq<Row>) { StableSort(EnabledRows(rows), HigherPriority) }

  function SequenceAt(root: Node, key: string): (r: seq<Node>) {
    match ChildOfKind(root, key, Sequence) case None => [] case Some(n) => n.content
  }

  /** One source as read from its cached document. */
  function ReadSource(row: Row, doc: Node): (r: Contribution) {
    var root := DocRoot(doc);
    Contribution(row.name, row.priority, SequenceAt(root, "proxies"), SequenceAt(root, "proxy-groups"),
                 ScalarValues(SequenceAt(root, "rules")), ChildOfKind(root, "rule-providers", Mapping))
  }

  /** The sources that have a cached document, in merge order. */
  function ReadSources(rows: seq<Row>, docs: map<string, Node>): (r: seq<Contribution>) {
    if rows == [] then [] else
      var row := rows[|rows| - 1];
      ReadSources(rows[..|rows| - 1], docs) + (if row.name in docs then [ReadSource(row, docs[row.name])] else [])
  }

  function Sources(inp: Input): (r: seq<Contribution>) { ReadSources(SortedRows(inp.rows), inp.docs) }

  // ----- the passes

  /** Namespacing one source, and dropping the RULE-SET rules its own providers do not back. */
  function Namespaced(c: Contribution): (r: Contribution) {
    var providers := if c.providers.Some? then Some(NamespacedProviders(c.name, c.providers.value)) else None;
    Contribution(c.name, c.priority, RewriteProxies(c.name, c.proxies), RewriteGroups(c.name, c.groups),
                 BackedRules(RewriteRules(c.name, c.rules), ProviderKeys(providers)), providers)
  }

  function NamespacedAll(cs: seq<Contribution>): (r: seq<Contribution>)
    ensures |r| == |cs|
  {
    seq(|cs|, i requires 0 <= i < |cs| => Namespaced(cs[i]))
  }

  function ProviderNodes(cs: seq<Contribution>): (r: seq<Node>) {
    if cs == [] then [] else
      var p := cs[|cs| - 1].providers;
      ProviderNodes(cs[..|cs| - 1]) + (if p.Some? then [p.value] else [])
  }

  /** The operator's proxies and groups under their own prefix. */
  function OwnProxies(inp: Input): (r: seq<Node>) { RewriteOwnProxies(inp.ownProxies) }

  function OwnGroups(inp: Input): (r: seq<Node>) {
    RewriteOwnGroups(OwnNames(inp.ownProxies, inp.ownGroups), inp.ownGroups)
  }

  function ProxyPart(inp: Input, cs: seq<Contribution>): (r: seq<Item>) { OwnItems(OwnProxies(inp)) + ProxyItems(cs) }

  function GroupPart(inp: Input, cs: seq<Contribution>): (r: seq<Item>) { OwnItems(OwnGroups(inp)) + GroupItems(cs) }

  function Contributors(inp: Input, cs: seq<Contribution>): (r: seq<Contributor>) {
    UpstreamParts(cs) + CustomParts(inp.customs)
  }

  /** The upstream proxies' names after merging. */
  function Upstream(inp: Input, cs: seq<Contribution>): (r: seq<string>) {
    UpstreamNames(AddProxies(ProxyPart(inp, cs)).merged)
  }

  /** The intermediate results of one build. */
  datatype Stages = Stages(base: seq<Node>, selected: seq<Node>, regions: seq<Node>, all: seq<Node>,
                           merged: seq<Node>, copies: seq<Node>, regionKeys: seq<string>,
                             regionLists: map<string, seq<string>>, continentKeys: seq<string>,
                               continentLists: map<string, seq<string>>)

  /** The stages that follow from merged groups, merged proxies and upstream names. */
  ghost function Chain(base: seq<Node>, merged: seq<Node>, names: seq<string>, own: seq<Node>, selector: string,
                       t: Tables, p: Params)
    : (s: Stages)
  {
    var selected := WithSelector(base, names, selector);
    var regions := WithRegions(selected, names, selector, t, p);
    var all := WithContinents(regions, selector, t, p);
    Stages(base, selected, regions, all, merged, FanoutProxies(own, all, selector),
           RegionKeys(names, ByCountry(t)), RegionMembers(names, ByCountry(t)),
           ContinentKeys(regions, t), ContinentLists(regions, t))
  }

  ghost function ContinentKeys(regions: seq<Node>, t: Tables): (r: seq<string>) {
    SortedKeys(Codes(RegionCodesOf(regions), ByContinent(t)))
  }

  ghost function ContinentLists(regions: seq<Node>, t: Tables): (r: map<string, seq<string>>) {
    ContinentMembers(RegionCodesOf(regions), RegionListsOf(regions), ByContinent(t))
  }

  ghost function StagesOf(inp: Input, cs: seq<Contribution>): (s: Stages) {
    Chain(AddGroups(GroupPart(inp, cs)).merged, AddProxies(ProxyPart(inp, cs)).merged, Upstream(inp, cs),
          OwnProxies(inp), inp.selector, inp.tables, inp.params)
  }

  /** The stages of the chain, told apart by name only. */
  ghost predicate IsChain(s: Stages, names: seq<string>, selector: string, t: Tables, p: Params) {
    && s.selected == WithSelector(s.base, names, selector)
    && s.regions == WithRegions(s.selected, names, selector, t, p)
    && s.all == WithContinents(s.regions, selector, t, p)
    && s.regionKeys == RegionKeys(names, ByCountry(t)) && s.regionLists == RegionMembers(names, ByCountry(t))
    && s.continentKeys == ContinentKeys(s.regions, t) && s.continentLists == ContinentLists(s.regions, t)
  }

  /** The pruning pass over the last stage. */
  ghost function PruneStage(inp: Input, cs: seq<Contribution>, s: Stages): (r: Pruned) {
    PruneGroups(s.all, Merged(Contributors(inp, cs), inp.fallback).rules, inp.selector, inp.fallback)
  }

  /** `Build` on namespaced contributions. */
  ghost function Assemble(inp: Input, cs: seq<Contribution>): (r: Config) {
    var s := StagesOf(inp, cs);
    var merged, pruned := Merged(Contributors(inp, cs), inp.fallback), PruneStage(inp, cs, s);
    Config(s.merged + s.copies, pruned.groups, merged.(rules := pruned.rules),
           MergedProviders(ProviderNodes(cs), Referenced(pruned.rules)),
           AddProxies(ProxyPart(inp, cs)).collisions, AddGroups(GroupPart(inp, cs)).conflicts)
  }

  /** `Pipeline.Build` as a value. */
  ghost function Build(inp: Input): (r: Config) { Assemble(inp, NamespacedAll(Sources(inp))) }

  // ----- items

  lemma {:induction false} GroupItemsLaw(cs: seq<Contribution>, item: Item)
    ensures item in GroupItems(cs) <==> exists i :: 0 <= i < |cs| && item in SourceItems(cs[i].name, cs[i].groups)
  {
    if cs != [] {
      var init := cs[..|cs| - 1];
      GroupItemsLaw(init, item);
      assert forall i :: 0 <= i < |init| ==> init[i] == cs[i];
    }
  }

  lemma {:induction false} ProxyItemsLaw(cs: seq<Contribution>, item: Item)
    ensures item in ProxyItems(cs) <==> exists i :: 0 <= i < |cs| && item in SourceItems(cs[i].name, cs[i].proxies)
  {
    if cs != [] {
      var init := cs[..|cs| - 1];
      ProxyItemsLaw(init, item);
      assert forall i :: 0 <= i < |init| ==> init[i] == cs[i];
    }
  }

  /** `x` is a name the source defines. */
  ghost predicate Defines(c: Contribution, x: string) {
    x != "" && (NodeNamed(c.proxies, x) || NodeNamed(c.groups, x))
  }

  ghost predicate SourceRegular(c: Contribution) {
    LowerName(c.name) && AllRegular(c.proxies) && AllRegular(c.groups)
  }

  ghost predicate Regulars(inp: Input, raw: seq<Contribution>) {
    && AllRegular(inp.ownProxies) && AllRegular(inp.ownGroups)
    && forall i :: 0 <= i < |raw| ==> SourceRegular(raw[i])
  }

  lemma RenamedAt(ps: seq<Node>, rename: string -> string, i: nat)
    requires AllRegular(ps) && i < |ps|
    ensures Regular(RenamedAll(ps, rename)[i])
    ensures Name(RenamedAll(ps, rename)[i]) == if Name(ps[i]) == "" then "" else rename(Name(ps[i]))
  {
    RenamedLaw(ps[i], rename);
  }

  lemma MappedAt(gs: seq<Node>, rename: string -> string, refer: string -> string, i: nat)
    requires AllRegular(gs) && i < |gs|
    ensures Regular(MappedGroups(gs, rename, refer)[i])
    ensures Name(MappedGroups(gs, rename, refer)[i]) == if Name(gs[i]) == "" then "" else rename(Name(gs[i]))
    ensures Members(MappedGroups(gs, rename, refer)[i]) == MapRefs(Members(gs[i]), refer)
  {
    MappedGroupLaw(gs[i], rename, refer);
  }

  /** Every item that enters the group merge is an own group or a source's group. */
  lemma GroupPartShape(inp: Input, raw: seq<Contribution>, k: nat)
    requires k < |GroupPart(inp, NamespacedAll(raw))|
    ensures var item := GroupPart(inp, NamespacedAll(raw))[k];
            || (exists j :: 0 <= j < |inp.ownGroups| && item.node == OwnGroups(inp)[j])
            || (exists i, j :: 0 <= i < |raw| && 0 <= j < |raw[i].groups|
                  && item.node == RewriteGroups(raw[i].name, raw[i].groups)[j])
  {
    var cs := NamespacedAll(raw);
    var own := OwnItems(OwnGroups(inp));
    var item := GroupPart(inp, cs)[k];
    if k < |own| {
      assert item.node == OwnGroups(inp)[k];
    } else {
      assert item == GroupItems(cs)[k - |own|];
      assert item in GroupItems(cs);
      GroupItemsLaw(cs, item);
      var i :| 0 <= i < |cs| && item in SourceItems(cs[i].name, cs[i].groups);
      var j :| 0 <= j < |cs[i].groups| && SourceItems(cs[i].name, cs[i].groups)[j] == item;
      assert cs[i] == Namespaced(raw[i]);
      assert item.node == RewriteGroups(raw[i].name, raw[i].groups)[j];
    }
  }

  lemma ProxyPartShape(inp: Input, raw: seq<Contribution>, k: nat)
    requires k < |ProxyPart(inp, NamespacedAll(raw))|
    ensures var item := ProxyPart(inp, NamespacedAll(raw))[k];
            || (exists j :: 0 <= j < |inp.ownProxies| && item.node == OwnProxies(inp)[j])
            || (exists i, j :: 0 <= i < |raw| && 0 <= j < |raw[i].proxies|
                  && item.node == RewriteProxies(raw[i].name, raw[i].proxies)[j])
  {
    var cs := NamespacedAll(raw);
    var own := OwnItems(OwnProxies(inp));
    var item := ProxyPart(inp, cs)[k];
    if k < |own| {
      assert item.node == OwnProxies(inp)[k];
    } else {
      assert item == ProxyItems(cs)[k - |own|];
      assert item in ProxyItems(cs);
      ProxyItemsLaw(cs, item);
      var i :| 0 <= i < |cs| && item in SourceItems(cs[i].name, cs[i].proxies);
      var j :| 0 <= j < |cs[i].proxies| && SourceItems(cs[i].name, cs[i].proxies)[j] == item;
      assert cs[i] == Namespaced(raw[i]);
      assert item.node == RewriteProxies(raw[i].name, raw[i].proxies)[j];
    }
  }

  lemma PartsRegular(inp: Input, raw: seq<Contribution>)
    requires Regulars(inp, raw)
    ensures ItemsRegular(ProxyPart(inp, NamespacedAll(raw))) && ItemsRegular(GroupPart(inp, NamespacedAll(raw)))
  {
    var ps, gs := ProxyPart(inp, NamespacedAll(raw)), GroupPart(inp, NamespacedAll(raw));
    forall k | 0 <= k < |ps| ensures Regular(ps[k].node) {
      ProxyPartShape(inp, raw, k);
      if j :| 0 <= j < |inp.ownProxies| && ps[k].node == OwnProxies(inp)[j] {
        RenamedAt(inp.ownProxies, OwnPrefixer(), j);
      } else {
        var i, j :| 0 <= i < |raw| && 0 <= j < |raw[i].proxies|
            && ps[k].node == RewriteProxies(raw[i].name, raw[i].proxies)[j];
        RenamedAt(raw[i].proxies, Prefixer(raw[i].name), j);
      }
    }
    forall k | 0 <= k < |gs| ensures Regular(gs[k].node) {
      GroupPartShape(inp, raw, k);
      if j :| 0 <= j < |inp.ownGroups| && gs[k].node == OwnGroups(inp)[j] {
        MappedAt(inp.ownGroups, OwnPrefixer(), OwnRefPrefixer(OwnNames(inp.ownProxies, inp.ownGroups)), j);
      } else {
        var i, j :| 0 <= i < |raw| && 0 <= j < |raw[i].groups|
            && gs[k].node == RewriteGroups(raw[i].name, raw[i].groups)[j];
        MappedAt(raw[i].groups, Prefixer(raw[i].name), RefPrefixer(raw[i].name), j);
      }
    }
  }
}
