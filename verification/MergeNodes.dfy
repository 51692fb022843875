/** Merging the proxies and proxy-groups of every source and of the operator's own file. */
module MergeNodes {
  import opened Text
  import opened Yaml
  import opened Namespace

  /** One contributing source after parsing, in the order sources are merged. */
  datatype Contribution = Contribution(name: string, priority: int, proxies: seq<Node>, groups: seq<Node>,
                                       rules: seq<string>, providers: Option<Node>)

  /** A node on its way into the merge, with the source it comes from. */
  datatype Item = Item(own: bool, source: string, node: Node)

  function OwnItems(ns: seq<Node>): (r: seq<Item>)
    ensures |r| == |ns|
  {
    seq(|ns|, i requires 0 <= i < |ns| => Item(true, "own", ns[i]))
  }

  function SourceItems(source: string, ns: seq<Node>): (r: seq<Item>)
    ensures |r| == |ns|
  {
    seq(|ns|, i requires 0 <= i < |ns| => Item(false, source, ns[i]))
  }

  function ProxyItems(cs: seq<Contribution>): (r: seq<Item>)
  {
    if cs == [] then [] else
      var c := cs[|cs| - 1];
      ProxyItems(cs[..|cs| - 1]) + SourceItems(c.name, c.proxies)
  }

  function GroupItems(cs: seq<Contribution>): (r: seq<Item>)
  {
    if cs == [] then [] else
      var c := cs[|cs| - 1];
      GroupItems(cs[..|cs| - 1]) + SourceItems(c.name, c.groups)
  }

  /** The named nodes of the items, in order. */
  function NamedNodes(items: seq<Item>): (r: seq<Node>)
    ensures forall i :: 0 <= i < |r| ==> Name(r[i]) != ""
  {
    if items == [] then [] else
      var n := items[|items| - 1].node;
      NamedNodes(items[..|items| - 1]) + (if Name(n) != "" then [n] else [])
  }

  function Names(ns: seq<Node>): (r: seq<string>)
    ensures |r| == |ns|
  {
    seq(|ns|, i requires 0 <= i < |ns| => Name(ns[i]))
  }

  // ----- proxies

  datatype Collision = Collision(proxy: string, first: string, source: string, resolution: string)

  datatype ProxyMerge = ProxyMerge(merged: seq<Node>, used: set<string>, first: map<string, string>,
                                   collisions: seq<Collision>)

  function FirstOf(first: map<string, string>, name: string): (s: string) {
    if name in first then first[name] else ""
  }

  function AddProxy(st: ProxyMerge, item: Item): (r: ProxyMerge) {
    var name := Name(item.node);
    if name == "" then st
    else if item.own then
      st.(merged := st.merged + [item.node], used := st.used + {name}, first := st.first[name := "own"])
    else if name in st.used then
      var final := name + "@" + item.source;
      ProxyMerge(st.merged + [SetName(item.node, final)], st.used + {final}, st.first,
                 st.collisions + [Collision(name, FirstOf(st.first, name), item.source, final)])
    else
      ProxyMerge(st.merged + [item.node], st.used + {name}, st.first[name := item.source], st.collisions)
  }

  function AddProxies(items: seq<Item>): (r: ProxyMerge) {
    if items == [] then ProxyMerge([], {}, map[], [])
    else AddProxy(AddProxies(items[..|items| - 1]), items[|items| - 1])
  }

  /** `MergeProxies` as a value. */
  function MergedProxies(own: seq<Node>, cs: seq<Contribution>): (r: ProxyMerge) {
    AddProxies(OwnItems(own) + ProxyItems(cs))
  }

  ghost predicate DistinctNames(items: seq<Item>) {
    forall i, j :: 0 <= i < j < |items| && Name(items[i].node) != "" ==> Name(items[i].node) != Name(items[j].node)
  }

  ghost predicate ItemNamed(items: seq<Item>, name: string) {
    name != "" && exists i :: 0 <= i < |items| && Name(items[i].node) == name
  }

  ghost predicate AllRegular(ns: seq<Node>) {
    forall i :: 0 <= i < |ns| ==> Regular(ns[i])
  }

  ghost predicate ItemsRegular(items: seq<Item>) {
    forall i :: 0 <= i < |items| ==> Regular(items[i].node)
  }

  lemma ItemNamedStep(items: seq<Item>, name: string)
    requires items != []
    ensures ItemNamed(items, name) <==>
            ItemNamed(items[..|items| - 1], name) || (name != "" && Name(items[|items| - 1].node) == name)
  {
    var init := items[..|items| - 1];
    if ItemNamed(items, name) {
      var i :| 0 <= i < |items| && Name(items[i].node) == name;
      assert i == |items| - 1 || Name(init[i].node) == name;
    }
    if ItemNamed(init, name) {
      var i :| 0 <= i < |init| && Name(init[i].node) == name;
      assert Name(items[i].node) == name;
    }
  }

  lemma NodeNamedAppend(ns: seq<Node>, n: Node, name: string)
    ensures NodeNamed(ns + [n], name) <==> NodeNamed(ns, name) || Name(n) == name
  {
    if NodeNamed(ns, name) {
      var i :| 0 <= i < |ns| && Name(ns[i]) == name;
      assert Name((ns + [n])[i]) == name;
    }
    assert (ns + [n])[|ns|] == n;
  }

  lemma LastNameIsNew(items: seq<Item>)
    requires DistinctNames(items) && items != []
    ensures !ItemNamed(items[..|items| - 1], Name(items[|items| - 1].node))
  {
    var init := items[..|items| - 1];
    assert forall i :: 0 <= i < |init| ==> init[i] == items[i];
  }

  /** With distinct names nothing is suffixed, dropped or reported: the merge is the named
      nodes in order. */
  lemma {:induction false} DistinctProxiesMergeVerbatim(items: seq<Item>)
    requires DistinctNames(items)
    ensures AddProxies(items).merged == NamedNodes(items)
    ensures AddProxies(items).collisions == []
    ensures forall x :: x in AddProxies(items).used <==> ItemNamed(items, x)
  {
    if items != [] {
      DistinctProxiesMergeVerbatim(items[..|items| - 1]);
      forall x { ItemNamedStep(items, x); }
      LastNameIsNew(items);
    }
  }

  lemma SuffixLaw(n: Node, final: string)
    requires Regular(n) && Name(n) != "" && final != ""
    ensures Regular(SetName(n, final)) && Name(SetName(n, final)) == final
  {
    SetFieldSame(n, "name", final);
  }

  /** Whatever collides, every name that came in names an emitted proxy, every emitted proxy
      is named and regular, and `used` is exactly the set of emitted names. */
  lemma {:induction false} MergedProxiesCover(items: seq<Item>)
    requires ItemsRegular(items)
    ensures var st := AddProxies(items);
            && AllRegular(st.merged)
            && (forall x :: x in st.used <==> NodeNamed(st.merged, x))
            && (forall x :: ItemNamed(items, x) ==> x in st.used)
            && "" !in st.used
  {
    hide Name, Regular, SetName;
    if items != [] {
      var init, last := items[..|items| - 1], items[|items| - 1];
      assert forall i :: 0 <= i < |init| ==> init[i] == items[i];
      MergedProxiesCover(init);
      var st, name := AddProxies(init), Name(last.node);
      var final := name + "@" + last.source;
      if name != "" && !last.own && name in st.used {
        SuffixLaw(last.node, final);
        forall x { NodeNamedAppend(st.merged, SetName(last.node, final), x); }
      } else if name != "" {
        forall x { NodeNamedAppend(st.merged, last.node, x); }
      }
      forall x { ItemNamedStep(items, x); }
    }
  }

  /** Some earlier collision gave a proxy this name. */
  ghost predicate SuffixMade(earlier: seq<Item>, name: string) {
    exists d :: d in AddProxies(earlier).collisions && d.resolution == name
  }

  /** The name is taken when the proxies in `earlier` have been added. */
  ghost predicate Taken(earlier: seq<Item>, name: string) { ItemNamed(earlier, name) || SuffixMade(earlier, name) }

  function Claimant(item: Item): (r: string) { if item.own then "own" else item.source }

  /** Proxy `i` has the name, and is the first to have it or an own one. */
  ghost predicate Claims(earlier: seq<Item>, i: nat, name: string) {
    && i < |earlier| && Name(earlier[i].node) == name
    && (earlier[i].own || forall j :: 0 <= j < i ==> Name(earlier[j].node) != name)
  }

  /** A collision made the name up before any proxy came with it. */
  ghost predicate MadeUp(earlier: seq<Item>, n: nat, name: string) {
    n <= |earlier| && SuffixMade(earlier[..n], name) && !ItemNamed(earlier[..n], name)
  }

  /** Who a collision names as first: the source of the first proxy of that name, "own" for an own one, or
      nobody if an earlier collision made the name up. */
  ghost predicate FirstClaim(earlier: seq<Item>, name: string, first: string) {
    || (exists i: nat :: Claims(earlier, i, name) && first == if earlier[i].own then "own" else earlier[i].source)
    || (first == "" && exists n: nat :: MadeUp(earlier, n, name))
  }

  lemma SuffixesStay(items: seq<Item>, name: string)
    requires items != [] && SuffixMade(items[..|items| - 1], name)
    ensures SuffixMade(items, name)
  {
    hide Name;
    var d :| d in AddProxies(items[..|items| - 1]).collisions && d.resolution == name;
    assert d in AddProxies(items).collisions;
  }

  lemma ClaimsStay(items: seq<Item>, name: string, first: string)
    requires items != [] && FirstClaim(items[..|items| - 1], name, first)
    ensures FirstClaim(items, name, first)
  {
    hide Name, AddProxies, SuffixMade, ItemNamed;
    var init := items[..|items| - 1];
    if i: nat :| Claims(init, i, name) && first == Claimant(init[i]) {
      assert forall j :: 0 <= j <= i ==> items[j] == init[j];
      assert Claims(items, i, name);
    } else {
      var n: nat :| MadeUp(init, n, name);
      assert init[..n] == items[..n];
      assert MadeUp(items, n, name);
    }
  }

  /** The used names are the taken ones, and each has a first claim. */
  lemma {:induction false} UsedIsTaken(items: seq<Item>, name: string)
    ensures name in AddProxies(items).used <==> Taken(items, name)
    ensures name in AddProxies(items).used ==> FirstClaim(items, name, FirstOf(AddProxies(items).first, name))
    ensures name in AddProxies(items).first ==> name in AddProxies(items).used
  {
    hide Name, FirstClaim;
    if items != [] {
      var init, last := items[..|items| - 1], items[|items| - 1];
      UsedIsTaken(init, name);
      ItemNamedStep(items, name);
      if SuffixMade(init, name) { SuffixesStay(items, name); }
      if name in AddProxies(init).used {
        UsedStays(items, name);
      } else {
        NewlyUsed(items, name);
      }
    }
  }

  lemma UsedStays(items: seq<Item>, name: string)
    requires items != [] && name in AddProxies(items[..|items| - 1]).used
    requires FirstClaim(items[..|items| - 1], name, FirstOf(AddProxies(items[..|items| - 1]).first, name))
    ensures name in AddProxies(items).used && FirstClaim(items, name, FirstOf(AddProxies(items).first, name))
  {
    hide Name, SuffixMade, FirstClaim, AddProxies;
    FirstStep(items, name);
    ClaimsStay(items, name, FirstOf(AddProxies(items[..|items| - 1]).first, name));
    if Name(items[|items| - 1].node) == name && items[|items| - 1].own { LastClaims(items, name); }
  }

  lemma LastClaims(items: seq<Item>, name: string)
    requires items != [] && Name(items[|items| - 1].node) == name
    requires items[|items| - 1].own || (name != "" && !ItemNamed(items[..|items| - 1], name))
    ensures FirstClaim(items, name, Claimant(items[|items| - 1]))
  {
    hide Name;
    var init := items[..|items| - 1];
    assert forall j :: 0 <= j < |init| ==> items[j] == init[j];
    assert Claims(items, |items| - 1, name);
  }

  lemma FirstStep(items: seq<Item>, name: string)
    requires items != []
    ensures AddProxies(items[..|items| - 1]).used <= AddProxies(items).used
    ensures var r := FirstOf(AddProxies(items).first, name);
            || r == FirstOf(AddProxies(items[..|items| - 1]).first, name)
            || (Name(items[|items| - 1].node) == name && r == Claimant(items[|items| - 1])
                && (items[|items| - 1].own || name !in AddProxies(items[..|items| - 1]).used))
  {
    hide Name;
  }

  lemma SuffixStep(items: seq<Item>, name: string)
    requires items != []
    ensures var init, last := items[..|items| - 1], items[|items| - 1];
            var x := Name(last.node);
            SuffixMade(items, name) <==>
              || SuffixMade(init, name)
              || (x != "" && !last.own && x in AddProxies(init).used && name == x + "@" + last.source)
  {
    hide Name;
    var init, last := items[..|items| - 1], |items| - 1;
    var st, r, x := AddProxies(init), AddProxies(items), Name(items[last].node);
    if x != "" && !items[last].own && x in st.used {
      assert r.collisions == st.collisions + [Collision(x, FirstOf(st.first, x), items[last].source,
                                                        x + "@" + items[last].source)];
      assert r.collisions[|st.collisions|] in r.collisions;
    } else {
      assert r.collisions == st.collisions;
    }
  }

  lemma SuffixClaims(items: seq<Item>, name: string)
    requires SuffixMade(items, name) && !ItemNamed(items, name)
    ensures FirstClaim(items, name, "")
  {
    hide SuffixMade, ItemNamed;
    assert items[..|items|] == items;
    assert MadeUp(items, |items|, name);
  }

  lemma NewlyUsed(items: seq<Item>, name: string)
    requires items != [] && name !in AddProxies(items[..|items| - 1]).used
             && name !in AddProxies(items[..|items| - 1]).first
    requires !ItemNamed(items[..|items| - 1], name) && !SuffixMade(items[..|items| - 1], name)
    ensures name in AddProxies(items).used <==> Taken(items, name)
    ensures name in AddProxies(items).used ==> FirstClaim(items, name, FirstOf(AddProxies(items).first, name))
    ensures name in AddProxies(items).first ==> name in AddProxies(items).used
  {
    hide Name, SuffixMade, FirstClaim, ItemNamed;
    ItemNamedStep(items, name);
    SuffixStep(items, name);
    if name != "" && Name(items[|items| - 1].node) == name {
      LastClaims(items, name);
    } else if SuffixMade(items, name) {
      SuffixClaims(items, name);
    }
  }

  /** Proxy `k` is an upstream one whose name was taken when it was added, and `c` reports that. */
  ghost predicate CollidesAt(items: seq<Item>, k: nat, c: Collision) {
    && k < |items| && !items[k].own && items[k].source == c.source && Name(items[k].node) == c.proxy != ""
    && c.resolution == c.proxy + "@" + c.source
    && Taken(items[..k], c.proxy) && FirstClaim(items[..k], c.proxy, c.first)
  }

  lemma CollisionStep(items: seq<Item>)
    requires items != []
    ensures var init, last := items[..|items| - 1], items[|items| - 1];
            var st, x := AddProxies(init), Name(last.node);
            var c := Collision(x, FirstOf(st.first, x), last.source, x + "@" + last.source);
            && (Taken(init, x) <==> x in st.used) && (x in st.used ==> FirstClaim(init, x, c.first))
            && AddProxies(items).collisions == st.collisions
               + (if x != "" && !last.own && x in st.used then [c] else [])
  {
    hide Name, Taken, FirstClaim;
    UsedIsTaken(items[..|items| - 1], Name(items[|items| - 1].node));
  }

  /** Every recorded collision is an upstream proxy whose name was taken before it, with whoever
      claimed the name first; its new name is the old one with its source as suffix. */
  lemma {:induction false} CollisionsRecorded(items: seq<Item>, c: Collision)
    requires c in AddProxies(items).collisions
    ensures exists k: nat :: CollidesAt(items, k, c)
  {
    hide Name, Taken, FirstClaim, AddProxy;
    var init := items[..|items| - 1];
    CollisionStep(items);
    if c in AddProxies(init).collisions {
      CollisionsRecorded(init, c);
      var k: nat :| CollidesAt(init, k, c);
      assert items[k] == init[k] && items[..k] == init[..k];
      assert CollidesAt(items, k, c);
    } else {
      assert CollidesAt(items, |init|, c);
    }
  }

  /** Conversely no collision goes unrecorded. */
  lemma {:induction false} EveryCollisionRecorded(items: seq<Item>, k: nat)
    requires k < |items| && !items[k].own && Name(items[k].node) != "" && Taken(items[..k], Name(items[k].node))
    ensures exists c :: c in AddProxies(items).collisions && CollidesAt(items, k, c)
  {
    hide Name, Taken, FirstClaim, AddProxy;
    var init := items[..|items| - 1];
    CollisionStep(items);
    if k < |init| {
      assert items[k] == init[k] && items[..k] == init[..k];
      EveryCollisionRecorded(init, k);
      var c :| c in AddProxies(init).collisions && CollidesAt(init, k, c);
      assert c in AddProxies(items).collisions && CollidesAt(items, k, c);
    } else {
      var c := AddProxies(items).collisions[|AddProxies(init).collisions|];
      assert c in AddProxies(items).collisions && CollidesAt(items, k, c);
    }
  }

  // ----- groups

  /** `existing` with the entries of `more` it does not hold yet appended, each once. */
  function UnionList(existing: seq<string>, more: seq<string>): (r: seq<string>)
    ensures forall x :: x in r <==> x in existing || x in more
    ensures existing <= r
  {
    if more == [] then existing else
      var acc, m := UnionList(existing, more[..|more| - 1]), more[|more| - 1];
      assert more == more[..|more| - 1] + [m];
      if m in acc then acc else acc + [m]
  }

  /** Entry `i` of `more` is new: `existing` lacks it, and so do the entries before. */
  ghost predicate NewAt(existing: seq<string>, more: seq<string>, i: nat) {
    i < |more| && more[i] !in existing && more[i] !in more[..i]
  }

  lemma NewAtStep(existing: seq<string>, init: seq<string>, m: string, i: nat)
    ensures NewAt(existing, init + [m], i) <==>
            NewAt(existing, init, i) || (i == |init| && m !in existing && m !in init)
  {
    var more := init + [m];
    if i <= |init| { assert more[..i] == init[..i]; }
    assert init[..|init|] == init;
  }

  lemma NothingNew(existing: seq<string>)
    ensures forall i: nat :: !NewAt(existing, [], i)
  {
  }

  /** Exactly what a union appends: of `more`, in order, the first occurrence of what `existing` lacks. */
  lemma {:induction false} UnionListExactly(existing: seq<string>, more: seq<string>) returns (at: seq<nat>)
    ensures Selects(more, at, UnionList(existing, more)[|existing|..])
    ensures forall i: nat :: i in at <==> NewAt(existing, more, i)
  {
    hide Selects, NewAt;
    if more == [] {
      at := [];
      assert existing[|existing|..] == [];
      NothingSelected(more);
      NothingNew(existing);
    } else {
      var init, m := more[..|more| - 1], more[|more| - 1];
      assert more == init + [m];
      at := UnionListExactly(existing, init);
      var acc := UnionList(existing, init);
      SelectsMore(init, at, acc[|existing|..], m);
      assert m !in acc ==> (acc + [m])[|existing|..] == acc[|existing|..] + [m];
      forall i: nat { NewAtStep(existing, init, m, i); }
      if m !in acc { at := at + [|init|]; }
    }
  }

  const COMPARED := ["type", "url", "interval", "tolerance", "lazy"]

  datatype Conflict = Conflict(group: string, attribute: string, chosen: string, value: string, source: string,
                               other: string)

  function ConflictsOn(attrs: seq<string>, existing: Node, incoming: Node, name: string, chosen: string, source: string)
    : (r: seq<Conflict>)
  {
    if attrs == [] then [] else
      var attr := attrs[|attrs| - 1];
      var ev, nv := GetField(existing, attr), GetField(incoming, attr);
      ConflictsOn(attrs[..|attrs| - 1], existing, incoming, name, chosen, source) +
      if ev == "" || nv == "" || ev == nv then [] else [Conflict(name, attr, chosen, ev, source, nv)]
  }

  /** A conflict is recorded exactly for a compared attribute that both groups set, to different
      values; the group that was there first keeps its value. */
  lemma {:induction false} ConflictsExactly(attrs: seq<string>, existing: Node, incoming: Node, name: string,
                                            chosen: string, source: string, c: Conflict)
    ensures c in ConflictsOn(attrs, existing, incoming, name, chosen, source) <==>
            && c.attribute in attrs && c.group == name && c.chosen == chosen && c.source == source
            && c.value == GetField(existing, c.attribute) != "" && c.other == GetField(incoming, c.attribute) != ""
               && c.value != c.other
  {
    hide GetField;
    if attrs != [] {
      ConflictsExactly(attrs[..|attrs| - 1], existing, incoming, name, chosen, source, c);
      assert attrs == attrs[..|attrs| - 1] + [attrs[|attrs| - 1]];
    }
  }

  datatype GroupMerge = GroupMerge(merged: seq<Node>, index: map<string, nat>, first: map<string, string>,
                                   conflicts: seq<Conflict>)

  function AddMembers(g: Node, more: seq<string>): (r: Node) { SetMembers(g, UnionList(Members(g), more)) }

  function AddGroup(st: GroupMerge, item: Item): (r: GroupMerge) {
    var name := Name(item.node);
    if name == "" then st
    else if name !in st.index || st.index[name] >= |st.merged| then
      st.(merged := st.merged + [item.node], index := st.index[name := |st.merged|],
          first := st.first[name := item.source])
    else
      var i := st.index[name];
      var g := AddMembers(st.merged[i], Members(item.node));
      st.(merged := st.merged[i := g],
          conflicts := st.conflicts + ConflictsOn(COMPARED, g, item.node, name, FirstOf(st.first, name), item.source))
  }

  function AddGroups(items: seq<Item>): (r: GroupMerge) {
    if items == [] then GroupMerge([], map[], map[], [])
    else AddGroup(AddGroups(items[..|items| - 1]), items[|items| - 1])
  }

  /** `MergeProxyGroups` as a value. */
  function MergedGroups(own: seq<Node>, cs: seq<Contribution>): (r: GroupMerge) {
    AddGroups(OwnItems(own) + GroupItems(cs))
  }

  lemma {:induction false} DistinctGroupsMergeVerbatim(items: seq<Item>)
    requires DistinctNames(items)
    ensures AddGroups(items).merged == NamedNodes(items)
    ensures AddGroups(items).conflicts == []
    ensures forall x :: x in AddGroups(items).index ==> ItemNamed(items, x)
  {
    if items != [] {
      DistinctGroupsMergeVerbatim(items[..|items| - 1]);
      forall x { ItemNamedStep(items, x); }
      LastNameIsNew(items);
    }
  }

  ghost const EVERYTHING: iset<string> := iset x: string | true

  /** Every member of every group is in `u`. */
  ghost predicate MembersWithin(gs: seq<Node>, u: iset<string>) {
    forall i, k :: 0 <= i < |gs| && 0 <= k < |Members(gs[i])| ==> Members(gs[i])[k] in u
  }

  ghost predicate ItemMembersWithin(items: seq<Item>, u: iset<string>) {
    forall i, k :: 0 <= i < |items| && 0 <= k < |Members(items[i].node)| ==> Members(items[i].node)[k] in u
  }

  /** A group is a named mapping. */
  ghost predicate IsGroup(n: Node) { Regular(n) && n.kind == Mapping && Name(n) != "" }

  lemma AddMembersLaw(g: Node, more: seq<string>)
    requires IsGroup(g)
    ensures IsGroup(AddMembers(g, more)) && Name(AddMembers(g, more)) == Name(g)
    ensures Members(AddMembers(g, more)) == UnionList(Members(g), more)
  {
    SetMembersLaws(g, UnionList(Members(g), more));
    SetValueOther(g, "proxies", MemberList(UnionList(Members(g), more)), "name");
  }

  /** The state the group merge keeps: groups, found under their own name. */
  ghost predicate GroupsIndexed(st: GroupMerge) {
    && (forall i :: 0 <= i < |st.merged| ==>
         IsGroup(st.merged[i]) && Name(st.merged[i]) in st.index && st.index[Name(st.merged[i])] == i)
    && (forall x :: x in st.index ==> st.index[x] < |st.merged| && Name(st.merged[st.index[x]]) == x)
  }

  lemma UpdateKeepsWithin(gs: seq<Node>, i: nat, g: Node, u: iset<string>)
    requires i < |gs| && MembersWithin(gs, u) && forall x :: x in Members(g) ==> x in u
    ensures MembersWithin(gs[i := g], u)
  {
    var r := gs[i := g];
    forall j, k | 0 <= j < |r| && 0 <= k < |Members(r[j])| ensures Members(r[j])[k] in u {
      if j == i { assert Members(g)[k] in Members(g); }
    }
  }

  lemma AppendKeepsWithin(gs: seq<Node>, g: Node, u: iset<string>)
    requires MembersWithin(gs, u) && forall x :: x in Members(g) ==> x in u
    ensures MembersWithin(gs + [g], u)
  {
    hide Members;
    var r := gs + [g];
    forall j, k | 0 <= j < |r| && 0 <= k < |Members(r[j])| ensures Members(r[j])[k] in u {
      if j == |gs| { assert Members(g)[k] in Members(g); }
    }
  }

  lemma RegularIsGroup(n: Node)
    requires Regular(n) && Name(n) != ""
    ensures IsGroup(n)
  {
  }

  lemma UnionAddsMembers(st: GroupMerge, item: Item, u: iset<string>)
    requires GroupsIndexed(st) && Name(item.node) in st.index
    requires MembersWithin(st.merged, u) && forall x :: x in Members(item.node) ==> x in u
    ensures GroupsIndexed(AddGroup(st, item)) && MembersWithin(AddGroup(st, item).merged, u)
  {
    hide Name, Members, AddMembers, ConflictsOn, IsGroup;
    var i := st.index[Name(item.node)];
    var g := st.merged[i];
    AddMembersLaw(g, Members(item.node));
    forall x | x in Members(AddMembers(g, Members(item.node))) ensures x in u {
      if x in Members(g) { var k :| 0 <= k < |Members(g)| && Members(g)[k] == x; }
    }
    UpdateKeepsWithin(st.merged, i, AddMembers(g, Members(item.node)), u);
  }

  lemma AddGroupKeeps(st: GroupMerge, item: Item, u: iset<string>)
    requires GroupsIndexed(st) && Regular(item.node)
    requires MembersWithin(st.merged, u) && forall x :: x in Members(item.node) ==> x in u
    ensures GroupsIndexed(AddGroup(st, item)) && MembersWithin(AddGroup(st, item).merged, u)
    ensures forall x :: x in AddGroup(st, item).index <==> x in st.index || (x == Name(item.node) && x != "")
  {
    hide Name, Members, AddMembers, ConflictsOn, Regular;
    var name := Name(item.node);
    if name in st.index {
      UnionAddsMembers(st, item, u);
    } else if name != "" {
      AppendKeepsWithin(st.merged, item.node, u);
      RegularIsGroup(item.node);
    }
  }

  /** The merged groups have distinct names, exactly those that came in, and no member that
      did not come in with one of them. */
  lemma {:induction false} MergedGroupsCover(items: seq<Item>, u: iset<string>)
    requires ItemsRegular(items) && ItemMembersWithin(items, u)
    ensures GroupsIndexed(AddGroups(items)) && MembersWithin(AddGroups(items).merged, u)
    ensures forall x :: x in AddGroups(items).index <==> ItemNamed(items, x)
  {
    if items != [] {
      var init := items[..|items| - 1];
      assert forall i :: 0 <= i < |init| ==> init[i] == items[i];
      MergedGroupsCover(init, u);
      assert items[|items| - 1] == items[|init|];
      AddGroupKeeps(AddGroups(init), items[|items| - 1], u);
      forall x { ItemNamedStep(items, x); }
    }
  }

  /** Some item of this name has the member. */
  ghost predicate Brings(items: seq<Item>, name: string, x: string) {
    exists k :: 0 <= k < |items| && Name(items[k].node) == name && x in Members(items[k].node)
  }

  lemma BringsStep(items: seq<Item>, name: string, x: string)
    requires items != []
    ensures var last := items[|items| - 1].node;
            Brings(items, name, x) <==>
              Brings(items[..|items| - 1], name, x) || (Name(last) == name && x in Members(last))
  {
    hide Name, Members;
    var init := items[..|items| - 1];
    assert forall k :: 0 <= k < |init| ==> init[k] == items[k];
  }

  lemma BringsNamed(items: seq<Item>, name: string, x: string)
    requires Brings(items, name, x) && name != ""
    ensures ItemNamed(items, name)
  {
  }

  /** The members of a merged group are exactly those of the items of its name. */
  lemma {:induction false} MergedMembersExactly(items: seq<Item>, i: nat, x: string)
    requires ItemsRegular(items) && i < |AddGroups(items).merged|
    ensures x in Members(AddGroups(items).merged[i]) <==> Brings(items, Name(AddGroups(items).merged[i]), x)
  {
    hide Name, Members, AddMembers, ConflictsOn, Brings, Regular, IsGroup;
    var init, last := items[..|items| - 1], items[|items| - 1];
    assert forall k :: 0 <= k < |init| ==> init[k] == items[k];
    var st, name := AddGroups(init), Name(last.node);
    assert ItemMembersWithin(init, EVERYTHING);
    MergedGroupsCover(init, EVERYTHING);
    BringsStep(items, Name(AddGroups(items).merged[i]), x);
    if i < |st.merged| {
      MergedMembersExactly(init, i, x);
      if name != "" && name in st.index { AddMembersLaw(st.merged[st.index[name]], Members(last.node)); }
    } else if Brings(init, name, x) {
      BringsNamed(init, name, x);
    }
  }

  /** `r` is `n` but for its members, which begin with those of `n`. */
  ghost predicate SameButMembers(n: Node, r: Node) {
    && Members(n) <= Members(r)
    && forall key :: key != "proxies" ==> GetNode(r, key) == GetNode(n, key) && GetField(r, key) == GetField(n, key)
  }

  /** Item `k` is the first of its name. */
  ghost predicate FirstNamed(items: seq<Item>, k: nat, name: string) {
    k < |items| && Name(items[k].node) == name && forall j :: 0 <= j < k ==> Name(items[j].node) != name
  }

  lemma AddMembersKeeps(n: Node, g: Node, more: seq<string>)
    requires IsGroup(g) && SameButMembers(n, g)
    ensures SameButMembers(n, AddMembers(g, more))
  {
    AddMembersLaw(g, more);
    var ms := UnionList(Members(g), more);
    forall key | key != "proxies"
      ensures GetNode(AddMembers(g, more), key) == GetNode(n, key)
              && GetField(AddMembers(g, more), key) == GetField(n, key)
    {
      SetValueOther(g, "proxies", MemberList(ms), key);
    }
    assert Members(g) <= ms;
    assert Members(n) == Members(g)[..|Members(n)|] == ms[..|Members(n)|];
  }

  /** The first group of a name keeps all its fields, and its members come first. */
  lemma {:induction false} FirstGroupKept(items: seq<Item>, i: nat) returns (k: nat)
    requires ItemsRegular(items) && i < |AddGroups(items).merged|
    ensures FirstNamed(items, k, Name(AddGroups(items).merged[i]))
            && SameButMembers(items[k].node, AddGroups(items).merged[i])
  {
    hide Name, Members, AddMembers, ConflictsOn, Regular, IsGroup, SameButMembers;
    var init, last := items[..|items| - 1], items[|items| - 1];
    assert forall j :: 0 <= j < |init| ==> init[j] == items[j];
    var st, name := AddGroups(init), Name(last.node);
    assert ItemMembersWithin(init, EVERYTHING);
    MergedGroupsCover(init, EVERYTHING);
    if i < |st.merged| {
      k := FirstGroupKept(init, i);
      if name != "" && name in st.index && st.index[name] == i {
        AddMembersLaw(st.merged[i], Members(last.node));
        AddMembersKeeps(init[k].node, st.merged[i], Members(last.node));
      }
    } else {
      k := |init|;
      assert !ItemNamed(init, name);
      SameAsItself(last.node);
    }
  }

  lemma SameAsItself(n: Node)
    ensures SameButMembers(n, n)
  {
  }

  // ----- the selector

  /** Position of the first group named `name`, or `|gs|`. */
  function FindNamed(gs: seq<Node>, name: string): (i: nat)
    ensures i <= |gs| && (i < |gs| ==> Name(gs[i]) == name)
    ensures forall k :: 0 <= k < i ==> Name(gs[k]) != name
  {
    if gs == [] then 0 else
      var i := FindNamed(gs[..|gs| - 1], name);
      if i < |gs| - 1 then i
      else if Name(gs[|gs| - 1]) == name then |gs| - 1 else |gs|
  }

  function EmptyMapping(tag: string): (n: Node) { Node(Mapping, tag, "", "", []) }

  function SelectorNode(name: string, members: seq<string>): (n: Node) {
    SetMembers(SetValue(SetValue(EmptyMapping("!!map"), "name", StrNode(name)), "type", StrNode("select")), members)
  }

  function DefaultSelector(name: string): (r: string) { if name == "" then "Proxies" else name }

  /** Adds `names` to the first group called `name`, if there is one. */
  function Augment(gs: seq<Node>, name: string, names: seq<string>): (r: seq<Node>)
    ensures |r| == |gs|
  {
    var i := FindNamed(gs, name);
    if i == |gs| then gs else gs[i := AddMembers(gs[i], names)]
  }

  /** `AppendProxiesGroup` as a value. */
  function WithSelector(gs: seq<Node>, names: seq<string>, name: string): (r: seq<Node>) {
    var name := DefaultSelector(name);
    if FindNamed(gs, name) < |gs| then Augment(gs, name, names) else gs + [SelectorNode(name, names)]
  }

  ghost predicate AllGroups(gs: seq<Node>) { forall i :: 0 <= i < |gs| ==> IsGroup(gs[i]) }

  lemma SelectorNodeLaw(name: string, members: seq<string>)
    requires name != ""
    ensures IsGroup(SelectorNode(name, members)) && Name(SelectorNode(name, members)) == name
    ensures Members(SelectorNode(name, members)) == members
    ensures GetField(SelectorNode(name, members), "type") == "select"
  {
    var n0 := EmptyMapping("!!map");
    var n1 := SetValue(n0, "name", StrNode(name));
    SetValueSame(n0, "name", StrNode(name));
    var n2 := SetValue(n1, "type", StrNode("select"));
    SetValueSame(n1, "type", StrNode("select"));
    SetValueOther(n1, "type", StrNode("select"), "name");
    SetMembersLaws(n2, members);
    SetValueOther(n2, "proxies", MemberList(members), "name");
    SetValueOther(n2, "proxies", MemberList(members), "type");
  }

  /** Augmenting changes no name, and adds no member but the given ones. */
  lemma AugmentLaw(gs: seq<Node>, name: string, names: seq<string>, u: iset<string>)
    requires AllGroups(gs) && MembersWithin(gs, u) && forall k :: 0 <= k < |names| ==> names[k] in u
    ensures AllGroups(Augment(gs, name, names)) && MembersWithin(Augment(gs, name, names), u)
    ensures Names(Augment(gs, name, names)) == Names(gs)
    ensures forall i :: 0 <= i < |gs| && Name(gs[i]) != name ==> Augment(gs, name, names)[i] == gs[i]
    ensures forall i :: 0 <= i < |gs| ==> Members(gs[i]) <= Members(Augment(gs, name, names)[i])
  {
    var i := FindNamed(gs, name);
    if i < |gs| {
      AddMembersLaw(gs[i], names);
      var ms := UnionList(Members(gs[i]), names);
      forall k | 0 <= k < |ms| ensures ms[k] in u { assert ms[k] in ms; }
    }
  }

  lemma SameNamesFind(gs: seq<Node>, r: seq<Node>, name: string)
    requires Names(r) == Names(gs)
    ensures |r| == |gs| && FindNamed(r, name) == FindNamed(gs, name)
  {
    hide Name;
    assert forall k :: 0 <= k < |gs| ==> Name(r[k]) == Names(r)[k] == Names(gs)[k] == Name(gs[k]);
  }

  /** After the selector pass a group of the selector's name exists and holds every proxy. */
  lemma WithSelectorLaw(gs: seq<Node>, names: seq<string>, name: string, u: iset<string>)
    requires AllGroups(gs) && MembersWithin(gs, u) && forall k :: 0 <= k < |names| ==> names[k] in u
    ensures var r := WithSelector(gs, names, name);
            && AllGroups(r) && MembersWithin(r, u)
            && |gs| <= |r| <= |gs| + 1 && Names(r)[..|gs|] == Names(gs)
            && (|r| > |gs| ==> Name(r[|gs|]) == DefaultSelector(name))
            && FindNamed(r, DefaultSelector(name)) < |r|
            && (forall x :: x in names ==> x in Members(r[FindNamed(r, DefaultSelector(name))]))
            && (forall i :: 0 <= i < |gs| && Name(gs[i]) != DefaultSelector(name) ==> r[i] == gs[i])
  {
    hide Name, Members, AddMembers, SelectorNode, IsGroup;
    var s, r := DefaultSelector(name), WithSelector(gs, names, name);
    var i := FindNamed(gs, s);
    if i < |gs| {
      AugmentLaw(gs, s, names, u);
      AddMembersLaw(gs[i], names);
      SameNamesFind(gs, r, s);
    } else {
      SelectorNodeLaw(s, names);
      assert r[..|gs|] == gs;
    }
  }

  /** Exactly what the selector lists after its pass: the proxies, behind the members it had if there was a
      group of its name. Without a configured name it is called `Proxies`. */
  lemma WithSelectorExactly(gs: seq<Node>, names: seq<string>, name: string)
    requires AllGroups(gs)
    ensures var s, r := if name == "" then "Proxies" else name, WithSelector(gs, names, name);
            var i := FindNamed(r, s);
            && i == FindNamed(gs, s) < |r|
            && Members(r[i]) == if i < |gs| then UnionList(Members(gs[i]), names) else names
  {
    hide Name, Members, AddMembers, SelectorNode, IsGroup, MembersWithin;
    var s, r := DefaultSelector(name), WithSelector(gs, names, name);
    var i := FindNamed(gs, s);
    if i < |gs| {
      AddMembersLaw(gs[i], names);
      SameNamesFind(gs, r, s) by { AugmentNames(gs, s, names); }
    } else {
      SelectorNodeLaw(s, names);
    }
  }

  lemma AugmentNames(gs: seq<Node>, name: string, names: seq<string>)
    requires AllGroups(gs)
    ensures Names(Augment(gs, name, names)) == Names(gs)
  {
    hide Name, Members, AddMembers, IsGroup;
    var i := FindNamed(gs, name);
    if i < |gs| { AddMembersLaw(gs[i], names); }
  }

  // ----- conflicts between groups of one name

  /** Item `k` came when a group of its name was there, first seen as item `f`, and the two set the attribute
      to different values. */
  ghost predicate ConflictAt(items: seq<Item>, f: nat, k: nat, c: Conflict) {
    && f < k < |items| && FirstNamed(items, f, c.group) && Name(items[k].node) == c.group != ""
    && c.attribute in {"type", "url", "interval", "tolerance", "lazy"}
    && c.chosen == items[f].source && c.source == items[k].source
    && c.value == GetField(items[f].node, c.attribute) != ""
    && c.other == GetField(items[k].node, c.attribute) != "" && c.value != c.other
  }

  ghost predicate Conflicts(items: seq<Item>, c: Conflict) { exists f: nat, k: nat :: ConflictAt(items, f, k, c) }

  lemma FirstIsUnique(items: seq<Item>, f: nat, g: nat, name: string)
    requires FirstNamed(items, f, name) && FirstNamed(items, g, name)
    ensures f == g
  {
    hide Name;
  }

  lemma FirstStays(items: seq<Item>, f: nat, name: string)
    requires items != [] && f < |items| - 1
    ensures FirstNamed(items, f, name) <==> FirstNamed(items[..|items| - 1], f, name)
  {
    hide Name;
    assert forall j :: 0 <= j < |items| - 1 ==> items[..|items| - 1][j] == items[j];
  }

  /** Item `k` conflicts with the first of its name. */
  ghost predicate ConflictsFrom(items: seq<Item>, k: nat, c: Conflict) { exists f: nat :: ConflictAt(items, f, k, c) }

  lemma ConflictsStep(items: seq<Item>, n: nat, c: Conflict)
    requires n + 1 == |items|
    ensures Conflicts(items, c) <==> Conflicts(items[..n], c) || ConflictsFrom(items, n, c)
  {
    hide Name, GetField;
    if f: nat, k: nat :| ConflictAt(items, f, k, c) && k < n {
      FirstStays(items, f, c.group);
      assert ConflictAt(items[..n], f, k, c);
    }
    if f: nat, k: nat :| ConflictAt(items[..n], f, k, c) {
      FirstStays(items, f, c.group);
      assert ConflictAt(items, f, k, c);
    }
  }

  /** The group found under a name is the first item's, and so is the recorded source. */
  lemma {:induction false} FirstSource(items: seq<Item>, name: string) returns (f: nat)
    requires ItemsRegular(items) && name in AddGroups(items).index
    ensures f < |items| && FirstNamed(items, f, name) && FirstOf(AddGroups(items).first, name) == items[f].source
    ensures AddGroups(items).index[name] < |AddGroups(items).merged|
            && SameButMembers(items[f].node, AddGroups(items).merged[AddGroups(items).index[name]])
  {
    hide Name, Members, AddMembers, ConflictsOn, Regular, IsGroup, SameButMembers;
    var init, last := items[..|items| - 1], items[|items| - 1];
    assert forall j :: 0 <= j < |init| ==> init[j] == items[j];
    assert ItemMembersWithin(items, EVERYTHING) && ItemMembersWithin(init, EVERYTHING);
    MergedGroupsCover(items, EVERYTHING);
    MergedGroupsCover(init, EVERYTHING);
    var g := FirstGroupKept(items, AddGroups(items).index[name]);
    if name in AddGroups(init).index {
      f := FirstSource(init, name);
      FirstStays(items, f, name);
      FirstIsUnique(items, f, g, name);
    } else {
      f := g;
      assert !ItemNamed(init, name);
    }
  }

  lemma ConflictsWithFirst(items: seq<Item>, n: nat, f: nat, g: Node, c: Conflict)
    requires n + 1 == |items| && f < n && FirstNamed(items, f, Name(items[n].node)) && Name(items[n].node) != ""
    requires SameButMembers(items[f].node, g)
    ensures c in ConflictsOn(COMPARED, g, items[n].node, Name(items[n].node), items[f].source, items[n].source) <==>
            ConflictsFrom(items, n, c)
  {
    hide Name, ConflictsOn, GetField, Members, GetNode;
    ConflictsExactly(COMPARED, g, items[n].node, Name(items[n].node), items[f].source, items[n].source, c);
    if ConflictAt(items, f, n, c) { assert ConflictsFrom(items, n, c); }
    if h: nat :| ConflictAt(items, h, n, c) { FirstIsUnique(items, h, f, c.group); }
  }

  lemma NothingBefore(items: seq<Item>, n: nat, c: Conflict)
    requires n + 1 == |items| && !(Name(items[n].node) != "" && ItemNamed(items[..n], Name(items[n].node)))
    ensures !ConflictsFrom(items, n, c)
  {
    hide Name, GetField;
    assert forall j :: 0 <= j < n ==> items[..n][j] == items[j];
  }

  lemma NewConflicts(items: seq<Item>, n: nat, c: Conflict)
    requires n + 1 == |items| && ItemsRegular(items)
    ensures c in AddGroups(items).conflicts <==> c in AddGroups(items[..n]).conflicts || ConflictsFrom(items, n, c)
  {
    hide Name, Members, ConflictsOn, Regular, IsGroup, GetField, ConflictsFrom, ItemNamed, FirstNamed, SameButMembers,
         AddMembers;
    var init, last := items[..n], items[n];
    assert forall j :: 0 <= j < |init| ==> init[j] == items[j];
    var st, name := AddGroups(init), Name(last.node);
    assert ItemMembersWithin(init, EVERYTHING);
    MergedGroupsCover(init, EVERYTHING);
    if name != "" && name in st.index {
      var f := FirstSource(init, name);
      FirstStays(items, f, name);
      AddMembersKeeps(init[f].node, st.merged[st.index[name]], Members(last.node));
      ConflictsWithFirst(items, n, f, AddMembers(st.merged[st.index[name]], Members(last.node)), c);
    } else {
      NothingBefore(items, n, c);
    }
  }

  /** The conflict report is exact: a later group that sets an attribute differently from the first of its
      name, and no other; the first group's value is the one that is kept. */
  lemma {:induction false} ConflictReportExactly(items: seq<Item>, c: Conflict)
    requires ItemsRegular(items)
    ensures c in AddGroups(items).conflicts <==> Conflicts(items, c)
  {
    hide Name, Regular, Conflicts, ConflictAt, AddGroup;
    if items != [] {
      assert forall j :: 0 <= j < |items| - 1 ==> items[..|items| - 1][j] == items[j];
      ConflictReportExactly(items[..|items| - 1], c);
      NewConflicts(items, |items| - 1, c);
      ConflictsStep(items, |items| - 1, c);
    } else {
      NoConflicts(c);
    }
  }

  lemma NoConflicts(c: Conflict)
    ensures !Conflicts([], c)
  {
  }
}
