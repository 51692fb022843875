/** Provider-prefix namespacing: `source_name` for everything a source defines, `_name` for the
    operator's own entries. */
module Namespace {
  import opened Text
  import opened Yaml
  import opened NodeHeap
  import opened RuleLine
  import opened Subscriptions

  // ----- names

  /** `stripSourcePrefix` */
  function StripSourcePrefix(name: string): (r: string) {
    var i := IndexOf(name, '_');
    if i == |name| then name else name[i + 1..]
  }

  lemma LowerNameHasNoUnderscore(source: string, name: string)
    requires LowerName(source)
    ensures IndexOf(Prefixed(source, name), '_') == |source|
    ensures Prefixed(source, name)[0] != '_'
    ensures CommaFree(source)
  {
    IndexOfIs(Prefixed(source, name), '_', |source|);
  }

  /** Stripping undoes prefixing, and leaves a name without an underscore alone. */
  lemma StripUndoesPrefix(source: string, name: string)
    requires LowerName(source)
    ensures StripSourcePrefix(Prefixed(source, name)) == name
    ensures '_' !in name ==> StripSourcePrefix(name) == name
  {
    LowerNameHasNoUnderscore(source, name);
  }

  /** (source, name) to `source_name` is one-to-one. */
  lemma PrefixedInjective(s1: string, n1: string, s2: string, n2: string)
    requires LowerName(s1) && LowerName(s2) && Prefixed(s1, n1) == Prefixed(s2, n2)
    ensures s1 == s2 && n1 == n2
  {
    LowerNameHasNoUnderscore(s1, n1);
    LowerNameHasNoUnderscore(s2, n2);
    StripUndoesPrefix(s1, n1);
    StripUndoesPrefix(s2, n2);
    assert Prefixed(s1, n1)[..|s1|] == s1 && Prefixed(s2, n2)[..|s2|] == s2;
  }

  /** Prefixed names are neither own names nor built-ins, and no two sources share one. */
  lemma NamespacesDisjoint(source: string, name: string, own: string)
    requires LowerName(source)
    ensures Prefixed(source, name) != OwnName(own)
    ensures Prefixed(source, name) !in BUILTINS && OwnName(own) !in BUILTINS
  {
    LowerNameHasNoUnderscore(source, name);
    assert OwnName(own)[0] == '_';
    assert Prefixed(source, name)[|source|] == '_';
    assert forall b :: b in BUILTINS ==> '_' !in b;
    assert '_' in Prefixed(source, name) && '_' in OwnName(own);
  }

  // ----- nodes as values

  function Prefixer(source: string): (f: string -> string) { (n: string) => Prefixed(source, n) }

  function RefPrefixer(source: string): (f: string -> string) { (m: string) => PrefixedRef(source, m) }

  function OwnName(name: string): (r: string) { "_" + name }

  function OwnPrefixer(): (f: string -> string) { (n: string) => OwnName(n) }

  function OwnRef(own: set<string>, m: string): (r: string) {
    if m in BUILTINS then m else if m in own then OwnName(m) else m
  }

  function OwnRefPrefixer(own: set<string>): (f: string -> string) { (m: string) => OwnRef(own, m) }

  /** The node under the name its own name is mapped to; an unnamed node is left alone. */
  function Renamed(n: Node, rename: string -> string): (r: Node) {
    if Name(n) != "" then SetName(n, rename(Name(n))) else n
  }

  function MapRefs(ms: seq<string>, refer: string -> string): (r: seq<string>) {
    seq(|ms|, i requires 0 <= i < |ms| => refer(ms[i]))
  }

  ghost predicate NodeNamed(ns: seq<Node>, name: string) {
    exists i :: 0 <= i < |ns| && Name(ns[i]) == name
  }

  /** A group renamed, with every member reference mapped; an empty member list is left alone. */
  function MappedGroup(g: Node, rename: string -> string, refer: string -> string): (r: Node) {
    var g1 := Renamed(g, rename);
    if Members(g1) == [] then g1 else SetMembers(g1, MapRefs(Members(g1), refer))
  }

  function RenamedAll(ps: seq<Node>, rename: string -> string): (r: seq<Node>)
    ensures |r| == |ps|
  {
    seq(|ps|, i requires 0 <= i < |ps| => Renamed(ps[i], rename))
  }

  function MappedGroups(gs: seq<Node>, rename: string -> string, refer: string -> string): (r: seq<Node>)
    ensures |r| == |gs|
  {
    seq(|gs|, i requires 0 <= i < |gs| => MappedGroup(gs[i], rename, refer))
  }

  function RewriteProxies(source: string, ps: seq<Node>): (r: seq<Node>) { RenamedAll(ps, Prefixer(source)) }

  function RewriteGroups(source: string, gs: seq<Node>): (r: seq<Node>)
    ensures |r| == |gs|
  {
    MappedGroups(gs, Prefixer(source), RefPrefixer(source))
  }

  function RewriteRules(source: string, rules: seq<string>): (r: seq<string>)
    ensures |r| == |rules|
  {
    seq(|rules|, i requires 0 <= i < |rules| => NamespacedRule(rules[i], source))
  }

  /** The non-empty names a list of nodes defines. */
  function NameSet(ns: seq<Node>): (r: set<string>)
  {
    if ns == [] then {} else
      var x := Name(ns[|ns| - 1]);
      NameSet(ns[..|ns| - 1]) + (if x != "" then {x} else {})
  }

  lemma {:induction false} NameSetHas(ns: seq<Node>, x: string)
    ensures x in NameSet(ns) <==> x != "" && exists i :: 0 <= i < |ns| && Name(ns[i]) == x
  {
    if ns != [] {
      NameSetHas(ns[..|ns| - 1], x);
      if x != "" && exists i :: 0 <= i < |ns| && Name(ns[i]) == x {
        var i :| 0 <= i < |ns| && Name(ns[i]) == x;
        assert i == |ns| - 1 || Name(ns[..|ns| - 1][i]) == x;
      }
    }
  }

  function RewriteOwnProxies(ps: seq<Node>): (r: seq<Node>)
    ensures |r| == |ps|
  {
    RenamedAll(ps, OwnPrefixer())
  }

  /** The names the own-proxies file defines. */
  function OwnNames(ps: seq<Node>, gs: seq<Node>): (r: set<string>) { NameSet(ps) + NameSet(gs) }

  function RewriteOwnGroups(own: set<string>, gs: seq<Node>): (r: seq<Node>) {
    MappedGroups(gs, OwnPrefixer(), OwnRefPrefixer(own))
  }

  /** What a node must satisfy for its name to be rewritten as the code intends. */
  predicate Regular(n: Node) { Paired(n) && Settable(n, "name") }

  /** A regular node gets exactly the new name (an unnamed one stays unnamed), keeps its
      members, and stays regular. */
  lemma RenamedLaw(n: Node, rename: string -> string)
    requires Regular(n)
    ensures Name(Renamed(n, rename)) == if Name(n) == "" then "" else rename(Name(n))
    ensures Members(Renamed(n, rename)) == Members(n)
    ensures Renamed(n, rename).kind == n.kind && Regular(Renamed(n, rename))
  {
    if Name(n) != "" {
      SetFieldSame(n, "name", rename(Name(n)));
      SetFieldOther(n, "name", rename(Name(n)), "proxies");
    }
  }

  /** A rewritten group is renamed and every member reference is mapped. */
  lemma MappedGroupLaw(g: Node, rename: string -> string, refer: string -> string)
    requires Regular(g)
    ensures Name(MappedGroup(g, rename, refer)) == if Name(g) == "" then "" else rename(Name(g))
    ensures Members(MappedGroup(g, rename, refer)) == MapRefs(Members(g), refer)
    ensures MappedGroup(g, rename, refer).kind == g.kind && Regular(MappedGroup(g, rename, refer))
  {
    RenamedLaw(g, rename);
    var g1 := Renamed(g, rename);
    if Members(g1) != [] {
      var ms := MapRefs(Members(g1), refer);
      SetMembersLaws(g1, ms);
      SetValueOther(g1, "proxies", MemberList(ms), "name");
    }
  }

  // ----- what the two rewritings are for

  /** `r` is `n` under another name: every other field is as it was. */
  ghost predicate OnlyRenamed(n: Node, r: Node, name: string) {
    && Regular(r) && r.kind == n.kind && r.tag == n.tag && r.head == n.head
    && Name(r) == (if Name(n) == "" then "" else name)
    && forall key :: key !in {"name", "proxies"} ==> GetNode(r, key) == GetNode(n, key)
  }

  /** A member of a group in the own-proxies file: an own name gets the underscore unless it is a built-in;
      everything else passes through. */
  ghost predicate OwnMember(ps: seq<Node>, gs: seq<Node>, m: string, r: string) {
    r == if !BuiltIn(m) && m != "" && (NodeNamed(ps, m) || NodeNamed(gs, m)) then "_" + m else m
  }

  /** The own-proxies file after its rewriting. */
  ghost predicate OwnRewritten(ps: seq<Node>, gs: seq<Node>, ps': seq<Node>, gs': seq<Node>) {
    && |ps'| == |ps| && |gs'| == |gs|
    && (forall i :: 0 <= i < |ps| && Regular(ps[i]) ==>
         OnlyRenamed(ps[i], ps'[i], "_" + Name(ps[i])) && Members(ps'[i]) == Members(ps[i]))
    && forall j :: 0 <= j < |gs| && Regular(gs[j]) ==>
         && OnlyRenamed(gs[j], gs'[j], "_" + Name(gs[j])) && |Members(gs'[j])| == |Members(gs[j])|
         && forall k :: 0 <= k < |Members(gs[j])| ==> OwnMember(ps, gs, Members(gs[j])[k], Members(gs'[j])[k])
  }

  /** A source after its rewriting: every name and every member that is no built-in behind the source's
      name and an underscore. */
  ghost predicate SourceRewritten(source: string, ps: seq<Node>, gs: seq<Node>, ps': seq<Node>, gs': seq<Node>) {
    && |ps'| == |ps| && |gs'| == |gs|
    && (forall i :: 0 <= i < |ps| && Regular(ps[i]) ==>
         OnlyRenamed(ps[i], ps'[i], source + "_" + Name(ps[i])) && Members(ps'[i]) == Members(ps[i]))
    && forall j :: 0 <= j < |gs| && Regular(gs[j]) ==>
         && OnlyRenamed(gs[j], gs'[j], source + "_" + Name(gs[j])) && |Members(gs'[j])| == |Members(gs[j])|
         && forall k :: 0 <= k < |Members(gs[j])| ==>
              var m := Members(gs[j])[k]; Members(gs'[j])[k] == if BuiltIn(m) then m else source + "_" + m
  }

  lemma RenamedIs(n: Node, rename: string -> string)
    requires Regular(n)
    ensures OnlyRenamed(n, Renamed(n, rename), rename(Name(n)))
  {
    RenamedLaw(n, rename);
    forall key | key !in {"name", "proxies"} ensures GetNode(Renamed(n, rename), key) == GetNode(n, key) {
      SetFieldOther(n, "name", rename(Name(n)), key);
    }
  }

  lemma MappedGroupIs(g: Node, rename: string -> string, refer: string -> string)
    requires Regular(g)
    ensures OnlyRenamed(g, MappedGroup(g, rename, refer), rename(Name(g)))
  {
    RenamedIs(g, rename);
    MappedGroupLaw(g, rename, refer);
    var g1 := Renamed(g, rename);
    forall key | key !in {"name", "proxies"} ensures GetNode(MappedGroup(g, rename, refer), key) == GetNode(g, key) {
      SetValueOther(g1, "proxies", MemberList(MapRefs(Members(g1), refer)), key);
    }
  }

  lemma OwnRefIs(own: set<string>, m: string)
    ensures OwnRef(own, m) == if !BuiltIn(m) && m in own then "_" + m else m
  {
  }

  lemma OwnRewrittenLaw(ps: seq<Node>, gs: seq<Node>)
    ensures OwnRewritten(ps, gs, RewriteOwnProxies(ps), RewriteOwnGroups(OwnNames(ps, gs), gs))
  {
    hide OnlyRenamed, Renamed, MappedGroup, Regular, Name, Members, OwnRef, BuiltIn;
    var own := OwnNames(ps, gs);
    var ps', gs' := RewriteOwnProxies(ps), RewriteOwnGroups(own, gs);
    forall i | 0 <= i < |ps| && Regular(ps[i])
      ensures OnlyRenamed(ps[i], ps'[i], "_" + Name(ps[i])) && Members(ps'[i]) == Members(ps[i])
    {
      RenamedLaw(ps[i], OwnPrefixer());
      RenamedIs(ps[i], OwnPrefixer());
    }
    forall j | 0 <= j < |gs| && Regular(gs[j])
      ensures OnlyRenamed(gs[j], gs'[j], "_" + Name(gs[j])) && |Members(gs'[j])| == |Members(gs[j])|
      ensures forall k :: 0 <= k < |Members(gs[j])| ==> OwnMember(ps, gs, Members(gs[j])[k], Members(gs'[j])[k])
    {
      MappedGroupLaw(gs[j], OwnPrefixer(), OwnRefPrefixer(own));
      MappedGroupIs(gs[j], OwnPrefixer(), OwnRefPrefixer(own));
      forall k | 0 <= k < |Members(gs[j])| ensures OwnMember(ps, gs, Members(gs[j])[k], Members(gs'[j])[k]) {
        var m := Members(gs[j])[k];
        OwnRefIs(own, m);
        NameSetHas(ps, m);
        NameSetHas(gs, m);
      }
    }
  }

  lemma SourceRewrittenLaw(source: string, ps: seq<Node>, gs: seq<Node>)
    ensures SourceRewritten(source, ps, gs, RewriteProxies(source, ps), RewriteGroups(source, gs))
  {
    hide OnlyRenamed, Renamed, MappedGroup, Regular, Name, Members, PrefixedRef, BuiltIn;
    var ps', gs' := RewriteProxies(source, ps), RewriteGroups(source, gs);
    forall i | 0 <= i < |ps| && Regular(ps[i])
      ensures OnlyRenamed(ps[i], ps'[i], source + "_" + Name(ps[i])) && Members(ps'[i]) == Members(ps[i])
    {
      RenamedLaw(ps[i], Prefixer(source));
      RenamedIs(ps[i], Prefixer(source));
    }
    forall j | 0 <= j < |gs| && Regular(gs[j])
      ensures OnlyRenamed(gs[j], gs'[j], source + "_" + Name(gs[j])) && |Members(gs'[j])| == |Members(gs[j])|
      ensures forall k :: 0 <= k < |Members(gs[j])| ==>
                var m := Members(gs[j])[k]; Members(gs'[j])[k] == if BuiltIn(m) then m else source + "_" + m
    {
      MappedGroupLaw(gs[j], Prefixer(source), RefPrefixer(source));
      MappedGroupIs(gs[j], Prefixer(source), RefPrefixer(source));
      forall m { RefIs(source, m); }
    }
  }

  // ----- nodes on the heap

  /** A pass allocates in the arena and keeps it made of trees. */
  twostate predicate Grown(a: Arena)
    reads a, a.nodes
  {
    a.Valid() && old(a.nodes) <= a.nodes && fresh(a.nodes - old(a.nodes))
  }

  /** What a pass promises about the nodes it hands out: new distinct roots of the arena. */
  twostate predicate NewRoots(a: Arena, new ns: seq<YamlNode>)
    reads a, ns
  {
    Roots(ns, a.nodes) && fresh(set n | n in ns)
  }

  twostate predicate NewRoot(a: Arena, new n: YamlNode)
    reads a, n
  {
    n in a.nodes && n.owner == null && fresh(n)
  }

  method CloneRenamed(a: Arena, p: YamlNode, rename: string -> string, ghost source: set<YamlNode>)
    returns (c: YamlNode)
    requires a.Valid() && Trees(source) && p in source
    modifies a
    ensures Grown(a) && NewRoot(a, c) && c.view == Renamed(p.view, rename)
  {
    c := a.Clone(p, source);
    var name := ReadField(c, "name", a.nodes);
    if name != "" {
      var _ := a.WriteField(c, "name", rename(name));
    }
  }

  /** The member loop of `rewriteGroupMembers` and `rewriteOwnGroupMembers`. */
  method MapMembers(members: seq<string>, refer: string -> string) returns (r: seq<string>)
    ensures r == MapRefs(members, refer)
  {
    r := [];
    for i := 0 to |members|
      invariant r == MapRefs(members[..i], refer)
    {
      r := r + [refer(members[i])];
    }
    assert members[..|members|] == members;
  }

  method CloneGroup(a: Arena, g: YamlNode, rename: string -> string, refer: string -> string,
                    ghost source: set<YamlNode>)
    returns (c: YamlNode)
    requires a.Valid() && Trees(source) && g in source
    modifies a
    ensures Grown(a) && NewRoot(a, c) && c.view == MappedGroup(g.view, rename, refer)
  {
    c := CloneRenamed(a, g, rename, source);
    var members := ReadMembers(c, "proxies", a.nodes);
    if |members| > 0 {
      var newMembers := MapMembers(members, refer);
      a.WriteMembers(c, "proxies", newMembers);
    }
  }

  /** The proxy loops of `RewriteSource` and `RewriteOwn`. */
  method CloneAllRenamed(a: Arena, ps: seq<YamlNode>, rename: string -> string, ghost source: set<YamlNode>)
    returns (cs: seq<YamlNode>)
    requires a.Valid() && Trees(source) && forall p :: p in ps ==> p in source
    modifies a
    ensures Grown(a) && NewRoots(a, cs) && Views(cs) == RenamedAll(Views(ps), rename)
  {
    cs := [];
    ghost var want := RenamedAll(Views(ps), rename);
    for i := 0 to |ps|
      invariant Grown(a) && NewRoots(a, cs) && Views(cs) == want[..i]
    {
      var c := CloneRenamed(a, ps[i], rename, source);
      RootsAppend(cs, c, a.nodes);
      SliceStep(want, i);
      cs := cs + [c];
    }
  }

  /** The group loops of `RewriteSource` and `RewriteOwn`. */
  method CloneAllGroups(a: Arena, gs: seq<YamlNode>, rename: string -> string, refer: string -> string,
                        ghost source: set<YamlNode>)
    returns (cs: seq<YamlNode>)
    requires a.Valid() && Trees(source) && forall g :: g in gs ==> g in source
    modifies a
    ensures Grown(a) && NewRoots(a, cs) && Views(cs) == MappedGroups(Views(gs), rename, refer)
  {
    cs := [];
    ghost var want := MappedGroups(Views(gs), rename, refer);
    for i := 0 to |gs|
      invariant Grown(a) && NewRoots(a, cs) && Views(cs) == want[..i]
    {
      var c := CloneGroup(a, gs[i], rename, refer, source);
      RootsAppend(cs, c, a.nodes);
      SliceStep(want, i);
      cs := cs + [c];
    }
  }

  method RewriteAllRules(name: string, rules: seq<string>) returns (rs: seq<string>)
    ensures rs == RewriteRules(name, rules)
  {
    rs := [];
    for i := 0 to |rules|
      invariant rs == RewriteRules(name, rules[..i])
    {
      var r := RewriteRuleTarget(rules[i], name);
      rs := rs + [r];
    }
    assert rules[..|rules|] == rules;
  }

  /** `RewriteSource`: the source's nodes are only read; every node handed out is new. */
  method RewriteSource(a: Arena, name: string, proxies: seq<YamlNode>, groups: seq<YamlNode>, rules: seq<string>,
                       ghost source: set<YamlNode>)
    returns (ps: seq<YamlNode>, gs: seq<YamlNode>, rs: seq<string>)
    requires a.Valid() && Trees(source)
    requires (forall p :: p in proxies ==> p in source) && (forall g :: g in groups ==> g in source)
    modifies a
    ensures Grown(a) && NewRoots(a, ps) && NewRoots(a, gs)
    ensures Views(ps) == RewriteProxies(name, Views(proxies))
    ensures Views(gs) == RewriteGroups(name, Views(groups))
    ensures rs == RewriteRules(name, rules)
    ensures SourceRewritten(name, Views(proxies), Views(groups), Views(ps), Views(gs))
  {
    SourceRewrittenLaw(name, Views(proxies), Views(groups));
    hide SourceRewritten;
    ps := CloneAllRenamed(a, proxies, Prefixer(name), source);
    gs := CloneAllGroups(a, groups, Prefixer(name), RefPrefixer(name), source);
    rs := RewriteAllRules(name, rules);
  }

  /** The name lookups at the top of `RewriteOwn`. */
  method CollectNames(ns: seq<YamlNode>, ghost source: set<YamlNode>) returns (names: set<string>)
    requires Trees(source) && forall n :: n in ns ==> n in source
    ensures names == NameSet(Views(ns))
  {
    names := {};
    for i := 0 to |ns|
      invariant names == NameSet(Views(ns)[..i])
    {
      var name := ReadField(ns[i], "name", source);
      assert Views(ns)[..i + 1][..i] == Views(ns)[..i];
      if name != "" { names := names + {name}; }
    }
    assert Views(ns)[..|ns|] == Views(ns);
  }

  method CollectOwnNames(proxies: seq<YamlNode>, groups: seq<YamlNode>, ghost source: set<YamlNode>)
    returns (own: set<string>)
    requires Trees(source)
    requires (forall p :: p in proxies ==> p in source) && (forall g :: g in groups ==> g in source)
    ensures own == OwnNames(Views(proxies), Views(groups))
  {
    var proxyNames := CollectNames(proxies, source);
    var groupNames := CollectNames(groups, source);
    own := proxyNames + groupNames;
  }

  method CloneOwn(a: Arena, proxies: seq<YamlNode>, groups: seq<YamlNode>, own: set<string>,
                  ghost source: set<YamlNode>)
    returns (ps: seq<YamlNode>, gs: seq<YamlNode>)
    requires a.Valid() && Trees(source)
    requires (forall p :: p in proxies ==> p in source) && (forall g :: g in groups ==> g in source)
    modifies a
    ensures Grown(a) && NewRoots(a, ps) && NewRoots(a, gs)
    ensures Views(ps) == RewriteOwnProxies(Views(proxies))
    ensures Views(gs) == RewriteOwnGroups(own, Views(groups))
  {
    ps := CloneAllRenamed(a, proxies, OwnPrefixer(), source);
    gs := CloneAllGroups(a, groups, OwnPrefixer(), OwnRefPrefixer(own), source);
  }

  /** `RewriteOwn` */
  method RewriteOwn(a: Arena, proxies: seq<YamlNode>, groups: seq<YamlNode>, ghost source: set<YamlNode>)
    returns (ps: seq<YamlNode>, gs: seq<YamlNode>)
    requires a.Valid() && Trees(source)
    requires (forall p :: p in proxies ==> p in source) && (forall g :: g in groups ==> g in source)
    modifies a
    ensures Grown(a) && NewRoots(a, ps) && NewRoots(a, gs)
    ensures Views(ps) == RewriteOwnProxies(Views(proxies))
    ensures Views(gs) == RewriteOwnGroups(OwnNames(Views(proxies), Views(groups)), Views(groups))
    ensures OwnRewritten(Views(proxies), Views(groups), Views(ps), Views(gs))
  {
    OwnRewrittenLaw(Views(proxies), Views(groups));
    hide OwnRewritten, Trees, RewriteOwnProxies, RewriteOwnGroups, OwnNames, Roots;
    var own := CollectOwnNames(proxies, groups, source);
    ps, gs := CloneOwn(a, proxies, groups, own, source);
  }
}
