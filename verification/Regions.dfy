/** The generated region and continent groups. */
module Regions {
  import opened Text
  import opened Sorting
  import opened Yaml
  import opened Subscriptions
  import opened Namespace
  import opened MergeNodes
  import opened RegionTable

  /** Health-check parameters, already printed. */
  datatype HealthParams = HealthParams(url: string, interval: string, timeout: string, maxFailed: string, lazy: string)

  datatype Params = Params(urlTest: HealthParams, balance: HealthParams, strategy: string)

  const REGION := "_region_"
  const LB_REGION := "_lb_region_"
  const CONTINENT := "_continent_"
  const LB_CONTINENT := "_lb_continent_"
  const UNKNOWN := "UNKNOWN"

  function Plain(v: string): (n: Node) { Node(Scalar, "", v, "", []) }

  function Typed(tag: string, v: string): (n: Node) { Node(Scalar, tag, v, "", []) }

  function GroupStem(name: string, kind: string, members: seq<string>): (n: Node) {
    SetMembers(SetValue(SetValue(EmptyMapping(""), "name", Plain(name)), "type", Plain(kind)), members)
  }

  /** `newURLTestGroup` */
  function UrlTestNode(name: string, members: seq<string>, p: HealthParams): (n: Node) {
    var g := SetValue(GroupStem(name, "url-test", members), "url", Plain(p.url));
    var g := SetValue(g, "interval", Typed("!!int", p.interval));
    var g := SetValue(g, "timeout", Typed("!!int", p.timeout));
    var g := SetValue(g, "max-failed-times", Typed("!!int", p.maxFailed));
    SetValue(g, "lazy", Typed("!!bool", p.lazy))
  }

  /** `newLoadBalanceGroup` */
  function LoadBalanceNode(name: string, members: seq<string>, p: HealthParams, strategy: string): (n: Node) {
    var g := SetValue(GroupStem(name, "load-balance", members), "url", Plain(p.url));
    var g := SetValue(g, "interval", Typed("!!int", p.interval));
    var g := SetValue(g, "lazy", Typed("!!bool", p.lazy));
    var g := SetValue(g, "strategy", Plain(strategy));
    var g := SetValue(g, "timeout", Typed("!!int", p.timeout));
    SetValue(g, "max-failed-times", Typed("!!int", p.maxFailed))
  }

  /** A scalar as it is written: its tag and its text. */
  datatype Written = Written(tag: string, value: string)

  /** The fields of a group, all but its member list: these scalars and no other field. */
  ghost predicate HasFields(g: Node, fields: map<string, Written>) {
    && g.kind == Mapping && Paired(g) && g.tag == "" && g.head == ""
    && (forall k :: GetNode(g, k).Some? ==> k in fields || k == "proxies")
    && forall k :: k in fields ==>
         && GetField(g, k) == fields[k].value
         && GetNode(g, k) == Some(Node(Scalar, fields[k].tag, fields[k].value, "", []))
  }

  lemma PutKeeps(g: Node, key: string, v: Node, fields: map<string, Written>)
    requires HasFields(g, fields) && v == Node(Scalar, v.tag, v.value, "", [])
    ensures HasFields(SetValue(g, key, v), fields[key := Written(v.tag, v.value)])
  {
    hide SetValue, GetField, GetNode;
    SetValueSame(g, key, v);
    SetValueShape(g, key, v);
    forall k | k != key { SetValueOther(g, key, v, k); }
  }

  lemma MembersKeep(g: Node, members: seq<string>, fields: map<string, Written>)
    requires HasFields(g, fields) && "proxies" !in fields
    ensures HasFields(SetMembers(g, members), fields)
  {
    hide SetValue, GetField, GetNode;
    SetValueSame(g, "proxies", MemberList(members));
    SetValueShape(g, "proxies", MemberList(members));
    forall k | k != "proxies" { SetValueOther(g, "proxies", MemberList(members), k); }
  }

  lemma NoFields()
    ensures HasFields(EmptyMapping(""), map[])
  {
  }

  lemma StemFields(name: string, kind: string, members: seq<string>)
    ensures HasFields(GroupStem(name, kind, members), map["name" := Written("", name), "type" := Written("", kind)])
  {
    hide SetValue, SetMembers, GetField, GetNode;
    var f := map["name" := Written("", name)];
    NoFields();
    PutKeeps(EmptyMapping(""), "name", Plain(name), map[]);
    assert map[]["name" := Written("", name)] == f;
    PutKeeps(SetValue(EmptyMapping(""), "name", Plain(name)), "type", Plain(kind), f);
    var f' := map["name" := Written("", name), "type" := Written("", kind)];
    assert f["type" := Written("", kind)] == f';
    MembersKeep(SetValue(SetValue(EmptyMapping(""), "name", Plain(name)), "type", Plain(kind)), members, f');
  }

  /** A url-test group carries each health-check parameter under its own key, the numbers as numbers. */
  lemma UrlTestFields(name: string, members: seq<string>, p: HealthParams)
    ensures HasFields(UrlTestNode(name, members, p),
                      map["name" := Written("", name), "type" := Written("", "url-test"), "url" := Written("", p.url),
                      "interval" := Written("!!int", p.interval), "timeout" := Written("!!int", p.timeout),
                        "max-failed-times" := Written("!!int", p.maxFailed), "lazy" := Written("!!bool", p.lazy)])
  {
    hide SetValue, GroupStem, HasFields;
    StemFields(name, "url-test", members);
    var g, f := GroupStem(name, "url-test", members),
        map["name" := Written("", name), "type" := Written("", "url-test")];
    PutKeeps(g, "url", Plain(p.url), f);
    g, f := SetValue(g, "url", Plain(p.url)), f["url" := Written("", p.url)];
    PutKeeps(g, "interval", Typed("!!int", p.interval), f);
    g, f := SetValue(g, "interval", Typed("!!int", p.interval)), f["interval" := Written("!!int", p.interval)];
    PutKeeps(g, "timeout", Typed("!!int", p.timeout), f);
    g, f := SetValue(g, "timeout", Typed("!!int", p.timeout)), f["timeout" := Written("!!int", p.timeout)];
    PutKeeps(g, "max-failed-times", Typed("!!int", p.maxFailed), f);
    g, f := SetValue(g, "max-failed-times", Typed("!!int", p.maxFailed)),
    f["max-failed-times" := Written("!!int", p.maxFailed)];
    PutKeeps(g, "lazy", Typed("!!bool", p.lazy), f);
    assert f["lazy" := Written("!!bool", p.lazy)]
        == map["name" := Written("", name), "type" := Written("", "url-test"), "url" := Written("", p.url),
           "interval" := Written("!!int", p.interval), "timeout" := Written("!!int", p.timeout),
             "max-failed-times" := Written("!!int", p.maxFailed), "lazy" := Written("!!bool", p.lazy)];
  }

  /** So does a load-balance group, with its strategy. */
  lemma LoadBalanceFields(name: string, members: seq<string>, p: HealthParams, strategy: string)
    ensures HasFields(LoadBalanceNode(name, members, p, strategy),
                      map["name" := Written("", name), "type" := Written("", "load-balance"),
                          "url" := Written("", p.url),
                      "interval" := Written("!!int", p.interval), "lazy" := Written("!!bool", p.lazy),
                        "strategy" := Written("", strategy), "timeout" := Written("!!int", p.timeout),
                          "max-failed-times" := Written("!!int", p.maxFailed)])
  {
    hide SetValue, GroupStem, HasFields;
    StemFields(name, "load-balance", members);
    var g, f := GroupStem(name, "load-balance", members),
    map["name" := Written("", name), "type" := Written("", "load-balance")];
    PutKeeps(g, "url", Plain(p.url), f);
    g, f := SetValue(g, "url", Plain(p.url)), f["url" := Written("", p.url)];
    PutKeeps(g, "interval", Typed("!!int", p.interval), f);
    g, f := SetValue(g, "interval", Typed("!!int", p.interval)), f["interval" := Written("!!int", p.interval)];
    PutKeeps(g, "lazy", Typed("!!bool", p.lazy), f);
    g, f := SetValue(g, "lazy", Typed("!!bool", p.lazy)), f["lazy" := Written("!!bool", p.lazy)];
    PutKeeps(g, "strategy", Plain(strategy), f);
    g, f := SetValue(g, "strategy", Plain(strategy)), f["strategy" := Written("", strategy)];
    PutKeeps(g, "timeout", Typed("!!int", p.timeout), f);
    g, f := SetValue(g, "timeout", Typed("!!int", p.timeout)), f["timeout" := Written("!!int", p.timeout)];
    PutKeeps(g, "max-failed-times", Typed("!!int", p.maxFailed), f);
    assert f["max-failed-times" := Written("!!int", p.maxFailed)]
        == map["name" := Written("", name), "type" := Written("", "load-balance"), "url" := Written("", p.url),
           "interval" := Written("!!int", p.interval), "lazy" := Written("!!bool", p.lazy),
             "strategy" := Written("", strategy), "timeout" := Written("!!int", p.timeout),
               "max-failed-times" := Written("!!int", p.maxFailed)];
  }

  // ----- classification

  /** How a prefixed proxy name is classified: by country, or not at all. */
  type Classifier = string -> Option<string>

  function ByCountry(t: Tables): (code: Classifier) { (name: string) => InferCountry(StripSourcePrefix(name), t) }

  /** Every class is a two-letter code. */
  ghost predicate Coded(code: Classifier) {
    forall name :: code(name).Some? ==> TwoLetters(code(name).value)
  }

  lemma CountriesAreCoded(t: Tables)
    requires ValidTables(t)
    ensures Coded(ByCountry(t))
  {
    forall name { InferredCodes(StripSourcePrefix(name), t); }
  }

  /** The names classified as `want`, in order; None stands for unclassified. */
  function Bucket(names: seq<string>, want: Option<string>, code: Classifier): (r: seq<string>) {
    if names == [] then [] else
      var n := names[|names| - 1];
      Bucket(names[..|names| - 1], want, code) + (if code(n) == want then [n] else [])
  }

  function Codes(names: seq<string>, code: Classifier): (r: set<string>) {
    if names == [] then {} else
      var c := code(names[|names| - 1]);
      Codes(names[..|names| - 1], code) + (if c.Some? then {c.value} else {})
  }

  function Buckets(names: seq<string>, code: Classifier): (r: map<string, seq<string>>)
    ensures r.Keys == Codes(names, code)
  {
    map cc | cc in Codes(names, code) :: Bucket(names, Some(cc), code)
  }

  /** The upstream proxy names: named, and not one of the operator's own. */
  function UpstreamNames(ps: seq<Node>): (r: seq<string>) {
    if ps == [] then [] else
      var n := Name(ps[|ps| - 1]);
      UpstreamNames(ps[..|ps| - 1]) + (if n != "" && n[0] != '_' then [n] else [])
  }

  /** Not one of the operator's own names. */
  predicate Unmarked(name: string) { name != "" && name[0] != '_' }

  /** Exactly: the names that do not begin with an underscore, in order. */
  lemma {:induction false} UpstreamNamesExactly(ps: seq<Node>) returns (at: seq<nat>)
    ensures Selects(Names(ps), at, UpstreamNames(ps))
    ensures forall i: nat :: i in at <==> i < |ps| && Unmarked(Name(ps[i]))
  {
    hide Selects, Name, Unmarked;
    if ps == [] {
      at := [];
      NothingSelected(Names(ps));
    } else {
      var init, n := ps[..|ps| - 1], Name(ps[|ps| - 1]);
      assert Names(ps) == Names(init) + [n];
      at := UpstreamNamesExactly(init);
      SelectsMore(Names(init), at, UpstreamNames(init), n);
      UpstreamNamesStep(ps);
      assert forall i :: 0 <= i < |init| ==> ps[i] == init[i];
      if Unmarked(n) { at := at + [|init|]; }
    }
  }

  lemma UpstreamNamesStep(ps: seq<Node>)
    requires ps != []
    ensures var init, n := ps[..|ps| - 1], Name(ps[|ps| - 1]);
            UpstreamNames(ps) == if Unmarked(n) then UpstreamNames(init) + [n] else UpstreamNames(init)
  {
  }

  /** The class of an upstream proxy is that of its name inside its source. */
  lemma ClassOfProxy(source: string, name: string, t: Tables)
    requires LowerName(source)
    ensures ByCountry(t)(source + "_" + name) == InferCountry(name, t)
  {
    StripUndoesPrefix(source, name);
  }

  // ----- emission

  function Lookup(m: map<string, seq<string>>, k: string): (r: seq<string>) { if k in m then m[k] else [] }

  /** Each key's url-test group followed at once by its load-balance sibling. */
  function EmitPairs(keys: seq<string>, members: map<string, seq<string>>, prefix: string, lbPrefix: string, p: Params)
    : (r: seq<Node>)
    ensures |r| == 2 * |keys|
  {
    if keys == [] then [] else
      var k := keys[|keys| - 1];
      EmitPairs(keys[..|keys| - 1], members, prefix, lbPrefix, p) +
      [UrlTestNode(prefix + k, Lookup(members, k), p.urlTest),
       LoadBalanceNode(lbPrefix + k, Lookup(members, k), p.balance, p.strategy)]
  }

  function PairNames(keys: seq<string>, prefix: string, lbPrefix: string): (r: seq<string>)
    ensures |r| == 2 * |keys|
  {
    if keys == [] then [] else
      PairNames(keys[..|keys| - 1], prefix, lbPrefix) + [prefix + keys[|keys| - 1], lbPrefix + keys[|keys| - 1]]
  }

  /** The keys of the region groups, in emission order: the codes ascending, then UNKNOWN. */
  ghost function RegionKeys(names: seq<string>, code: Classifier): (r: seq<string>) {
    SortedKeys(Codes(names, code)) + (if Bucket(names, None, code) == [] then [] else [UNKNOWN])
  }

  function RegionMembers(names: seq<string>, code: Classifier): (r: map<string, seq<string>>) {
    if Bucket(names, None, code) == [] then Buckets(names, code)
       else Buckets(names, code)[UNKNOWN := Bucket(names, None, code)]
  }

  /** Adds generated groups and lists their names in the selector. */
  function WithGenerated(gs: seq<Node>, made: seq<Node>, names: seq<string>, selector: string): (r: seq<Node>) {
    if |names| > 0 && selector != "" then Augment(gs + made, selector, names) else gs + made
  }

  /** `AppendRegionGroups` as a value, for any way of classifying names. */
  ghost function WithClasses(gs: seq<Node>, names: seq<string>, selector: string, code: Classifier,
                             p: Params): (r: seq<Node>) {
    var keys := RegionKeys(names, code);
    WithGenerated(gs, EmitPairs(keys, RegionMembers(names, code), REGION, LB_REGION, p),
                  PairNames(keys, REGION, LB_REGION), selector)
  }

  /** `AppendRegionGroups` as a value. */
  ghost function WithRegions(gs: seq<Node>, names: seq<string>, selector: string, t: Tables,
                             p: Params): (r: seq<Node>) {
    WithClasses(gs, names, selector, ByCountry(t), p)
  }

  // ----- continents

  /** The url-test region groups found among all groups: `_region_` and at least one more character. */
  predicate IsRegionName(name: string) { |name| > 8 && name[..8] == REGION }

  /** The keys of those groups, in order. */
  function RegionCodesOf(gs: seq<Node>): (r: seq<string>) {
    if gs == [] then [] else
      var n := Name(gs[|gs| - 1]);
      RegionCodesOf(gs[..|gs| - 1]) + (if IsRegionName(n) then [n[8..]] else [])
  }

  /** Their member lists by key; a later group of the same name wins. */
  function RegionListsOf(gs: seq<Node>): (r: map<string, seq<string>>) {
    if gs == [] then map[] else
      var g := gs[|gs| - 1];
      var m := RegionListsOf(gs[..|gs| - 1]);
      if IsRegionName(Name(g)) then m[Name(g)[8..] := Members(g)] else m
  }

  /** The continent a region key counts towards. */
  function ByContinent(t: Tables): (at: Classifier) {
    (cc: string) => if cc == UNKNOWN then None else ContinentOf(cc, t)
  }

  /** The region keys on a continent. */
  function Countries(ccs: seq<string>, cont: string, at: Classifier): (r: set<string>) {
    if ccs == [] then {} else
      var cc := ccs[|ccs| - 1];
      Countries(ccs[..|ccs| - 1], cont, at) + (if at(cc) == Some(cont) then {cc} else {})
  }

  function ConcatLists(ccs: seq<string>, lists: map<string, seq<string>>): (r: seq<string>) {
    if ccs == [] then [] else ConcatLists(ccs[..|ccs| - 1], lists) + Lookup(lists, ccs[|ccs| - 1])
  }

  ghost function ContinentMembers(ccs: seq<string>, lists: map<string, seq<string>>,
                                  at: Classifier): (r: map<string, seq<string>>)
    ensures r.Keys == Codes(ccs, at)
  {
    map cont | cont in Codes(ccs, at) :: ConcatLists(SortedKeys(Countries(ccs, cont, at)), lists)
  }

  /** `AppendContinentGroups` as a value. */
  ghost function WithContinents(gs: seq<Node>, selector: string, t: Tables, p: Params): (r: seq<Node>) {
    var ccs, at := RegionCodesOf(gs), ByContinent(t);
    var keys := SortedKeys(Codes(ccs, at));
    WithGenerated(gs, EmitPairs(keys, ContinentMembers(ccs, RegionListsOf(gs), at), CONTINENT, LB_CONTINENT, p),
                  PairNames(keys, CONTINENT, LB_CONTINENT), selector)
  }

  // ----- laws: the nodes

  lemma PlainFieldKeepsGroup(g: Node, key: string, v: Node)
    requires IsGroup(g) && key != "name" && key != "proxies"
    ensures IsGroup(SetValue(g, key, v)) && Name(SetValue(g, key, v)) == Name(g)
            && Members(SetValue(g, key, v)) == Members(g)
  {
    SetValueSame(g, key, v);
    SetValueOther(g, key, v, "name");
    SetValueOther(g, key, v, "proxies");
  }

  lemma GroupStemLaw(name: string, kind: string, members: seq<string>)
    requires name != ""
    ensures IsGroup(GroupStem(name, kind, members)) && Name(GroupStem(name, kind, members)) == name
    ensures Members(GroupStem(name, kind, members)) == members
  {
    var n0 := EmptyMapping("");
    var n1 := SetValue(n0, "name", Plain(name));
    SetValueSame(n0, "name", Plain(name));
    var n2 := SetValue(n1, "type", Plain(kind));
    SetValueSame(n1, "type", Plain(kind));
    SetValueOther(n1, "type", Plain(kind), "name");
    SetMembersLaws(n2, members);
    SetValueOther(n2, "proxies", MemberList(members), "name");
  }

  lemma UrlTestLaw(name: string, members: seq<string>, p: HealthParams)
    requires name != ""
    ensures IsGroup(UrlTestNode(name, members, p)) && Name(UrlTestNode(name, members, p)) == name
    ensures Members(UrlTestNode(name, members, p)) == members
  {
    GroupStemLaw(name, "url-test", members);
    var g := GroupStem(name, "url-test", members);
    PlainFieldKeepsGroup(g, "url", Plain(p.url));
    g := SetValue(g, "url", Plain(p.url));
    PlainFieldKeepsGroup(g, "interval", Typed("!!int", p.interval));
    g := SetValue(g, "interval", Typed("!!int", p.interval));
    PlainFieldKeepsGroup(g, "timeout", Typed("!!int", p.timeout));
    g := SetValue(g, "timeout", Typed("!!int", p.timeout));
    PlainFieldKeepsGroup(g, "max-failed-times", Typed("!!int", p.maxFailed));
    g := SetValue(g, "max-failed-times", Typed("!!int", p.maxFailed));
    PlainFieldKeepsGroup(g, "lazy", Typed("!!bool", p.lazy));
  }

  lemma LoadBalanceLaw(name: string, members: seq<string>, p: HealthParams, strategy: string)
    requires name != ""
    ensures IsGroup(LoadBalanceNode(name, members, p, strategy))
            && Name(LoadBalanceNode(name, members, p, strategy)) == name
    ensures Members(LoadBalanceNode(name, members, p, strategy)) == members
  {
    GroupStemLaw(name, "load-balance", members);
    var g := GroupStem(name, "load-balance", members);
    PlainFieldKeepsGroup(g, "url", Plain(p.url));
    g := SetValue(g, "url", Plain(p.url));
    PlainFieldKeepsGroup(g, "interval", Typed("!!int", p.interval));
    g := SetValue(g, "interval", Typed("!!int", p.interval));
    PlainFieldKeepsGroup(g, "lazy", Typed("!!bool", p.lazy));
    g := SetValue(g, "lazy", Typed("!!bool", p.lazy));
    PlainFieldKeepsGroup(g, "strategy", Plain(strategy));
    g := SetValue(g, "strategy", Plain(strategy));
    PlainFieldKeepsGroup(g, "timeout", Typed("!!int", p.timeout));
    g := SetValue(g, "timeout", Typed("!!int", p.timeout));
    PlainFieldKeepsGroup(g, "max-failed-times", Typed("!!int", p.maxFailed));
  }

  lemma {:induction false} EmitPairsAt(keys: seq<string>, members: map<string, seq<string>>, prefix: string,
                                       lbPrefix: string, p: Params, k: nat)
    requires k < |keys|
    ensures EmitPairs(keys, members, prefix, lbPrefix, p)[2 * k]
            == UrlTestNode(prefix + keys[k], Lookup(members, keys[k]), p.urlTest)
    ensures EmitPairs(keys, members, prefix, lbPrefix, p)[2 * k + 1]
         == LoadBalanceNode(lbPrefix + keys[k], Lookup(members, keys[k]), p.balance, p.strategy)
    ensures PairNames(keys, prefix, lbPrefix)[2 * k] == prefix + keys[k]
    ensures PairNames(keys, prefix, lbPrefix)[2 * k + 1] == lbPrefix + keys[k]
  {
    if k < |keys| - 1 {
      EmitPairsAt(keys[..|keys| - 1], members, prefix, lbPrefix, p, k);
    }
  }

  /** The `k`-th key's groups: adjacent siblings, equal members, names from the key. */
  lemma EmitPairsLaw(keys: seq<string>, members: map<string, seq<string>>, prefix: string, lbPrefix: string,
                     p: Params, k: nat)
    requires k < |keys| && prefix != "" && lbPrefix != ""
    ensures var gs, names := EmitPairs(keys, members, prefix, lbPrefix, p), PairNames(keys, prefix, lbPrefix);
            && IsGroup(gs[2 * k]) && Name(gs[2 * k]) == names[2 * k] == prefix + keys[k]
            && IsGroup(gs[2 * k + 1]) && Name(gs[2 * k + 1]) == names[2 * k + 1] == lbPrefix + keys[k]
            && Members(gs[2 * k]) == Members(gs[2 * k + 1]) == Lookup(members, keys[k])
  {
    EmitPairsAt(keys, members, prefix, lbPrefix, p, k);
    UrlTestLaw(prefix + keys[k], Lookup(members, keys[k]), p.urlTest);
    LoadBalanceLaw(lbPrefix + keys[k], Lookup(members, keys[k]), p.balance, p.strategy);
  }

  /** Groups `2k` and `2k+1` are the siblings of `key`. */
  ghost predicate Siblings(made: seq<Node>, k: nat, key: string, list: seq<string>, prefix: string, lbPrefix: string)
    requires 2 * k + 1 < |made|
  {
    var g, lb := made[2 * k], made[2 * k + 1];
    && IsGroup(g) && Name(g) == prefix + key && Members(g) == list
    && IsGroup(lb) && Name(lb) == lbPrefix + key && Members(lb) == list
  }

  ghost predicate SiblingList(made: seq<Node>, keys: seq<string>, members: map<string, seq<string>>, prefix: string,
                              lbPrefix: string) {
    && |made| == 2 * |keys|
    && forall k :: 0 <= k < |keys| ==> Siblings(made, k, keys[k], Lookup(members, keys[k]), prefix, lbPrefix)
  }

  lemma EmitPairsShape(keys: seq<string>, members: map<string, seq<string>>, prefix: string, lbPrefix: string,
                       p: Params)
    requires prefix != "" && lbPrefix != ""
    ensures SiblingList(EmitPairs(keys, members, prefix, lbPrefix, p), keys, members, prefix, lbPrefix)
  {
    forall k | 0 <= k < |keys|
      ensures Siblings(EmitPairs(keys, members, prefix, lbPrefix, p), k, keys[k], Lookup(members, keys[k]), prefix,
                       lbPrefix)
    {
      EmitPairsLaw(keys, members, prefix, lbPrefix, p, k);
    }
  }

  // ----- laws: the partition

  /** The positions of the names classified as `want`. */
  ghost function Positions(names: seq<string>, want: Option<string>, code: Classifier): (r: seq<nat>) {
    if names == [] then [] else
      Positions(names[..|names| - 1], want, code) + (if code(names[|names| - 1]) == want then [|names| - 1] else [])
  }

  ghost predicate Picks(names: seq<string>, pos: seq<nat>, b: seq<string>, want: Option<string>, code: Classifier) {
    && |pos| == |b|
    && (forall k :: 0 <= k < |b| ==> pos[k] < |names| && b[k] == names[pos[k]])
    && (forall k, l :: 0 <= k < l < |b| ==> pos[k] < pos[l])
    && (forall i: nat :: i < |names| ==> (i in pos <==> code(names[i]) == want))
  }

  lemma PicksMore(names: seq<string>, n: string, pos: seq<nat>, b: seq<string>, want: Option<string>, code: Classifier)
    requires Picks(names, pos, b, want, code)
    ensures if code(n) == want then Picks(names + [n], pos + [|names|], b + [n], want, code)
            else Picks(names + [n], pos, b, want, code)
  {
    assert |names| !in pos;
  }

  lemma {:induction false} BucketPicks(names: seq<string>, want: Option<string>, code: Classifier)
    ensures Picks(names, Positions(names, want, code), Bucket(names, want, code), want, code)
  {
    hide Picks;
    if names != [] {
      var init, n := names[..|names| - 1], names[|names| - 1];
      var pos, b := Positions(init, want, code), Bucket(init, want, code);
      assert names == init + [n];
      assert Positions(names, want, code) == if code(n) == want then pos + [|init|] else pos;
      assert Bucket(names, want, code) == if code(n) == want then b + [n] else b;
      BucketPicks(init, want, code);
      PicksMore(init, n, pos, b, want, code);
    } else {
      assert Positions(names, want, code) == [] && Bucket(names, want, code) == [];
      NothingPicked(want, code);
    }
  }

  lemma NothingPicked(want: Option<string>, code: Classifier)
    ensures Picks([], [], [], want, code)
  {
  }

  /** A bucket is the subsequence of exactly the names of its class, in input order. */
  lemma BucketIsSubsequence(names: seq<string>, want: Option<string>, code: Classifier)
    ensures var pos, b := Positions(names, want, code), Bucket(names, want, code);
            && |pos| == |b|
            && (forall k :: 0 <= k < |b| ==> pos[k] < |names| && b[k] == names[pos[k]])
            && (forall k, l :: 0 <= k < l < |b| ==> pos[k] < pos[l])
            && (forall i: nat :: i < |names| ==> (i in pos <==> code(names[i]) == want))
  {
    BucketPicks(names, want, code);
  }

  lemma {:induction false} CodesLaw(names: seq<string>, code: Classifier, cc: string)
    ensures cc in Codes(names, code) <==> Bucket(names, Some(cc), code) != []
  {
    if names != [] { CodesLaw(names[..|names| - 1], code, cc); }
  }

  lemma {:induction false} BucketWithin(names: seq<string>, want: Option<string>, code: Classifier)
    ensures forall x :: x in Bucket(names, want, code) <==> x in names && code(x) == want
  {
    if names != [] {
      BucketWithin(names[..|names| - 1], want, code);
      assert names == names[..|names| - 1] + [names[|names| - 1]];
    }
  }

  lemma {:induction false} CodesAreCoded(names: seq<string>, code: Classifier)
    requires Coded(code)
    ensures forall cc :: cc in Codes(names, code) ==> TwoLetters(cc)
    ensures UNKNOWN !in Codes(names, code)
  {
    if names != [] { CodesAreCoded(names[..|names| - 1], code); }
  }

  /** Each region key's members are the names of that class, never empty. */
  lemma RegionMembersLaw(names: seq<string>, code: Classifier, k: nat)
    requires Coded(code) && k < |RegionKeys(names, code)|
    ensures var key := RegionKeys(names, code)[k];
            && Lookup(RegionMembers(names, code), key)
               == Bucket(names, if key == UNKNOWN then None else Some(key), code)
            && Lookup(RegionMembers(names, code), key) != []
            && (key == UNKNOWN || TwoLetters(key))
  {
    CodesAreCoded(names, code);
    var key := RegionKeys(names, code)[k];
    var sorted := SortedKeys(Codes(names, code));
    if k < |sorted| {
      assert sorted[k] in sorted;
      CodesLaw(names, code, key);
      BucketWithin(names, Some(key), code);
      var b := Bucket(names, Some(key), code);
      assert b[0] in b;
    }
  }

  /** The region groups partition the upstream names: every name is in the group of its class
      and in no other. */
  lemma RegionsPartition(names: seq<string>, code: Classifier, x: string)
    requires Coded(code) && x in names
    ensures exists k :: 0 <= k < |RegionKeys(names, code)|
              && x in Lookup(RegionMembers(names, code), RegionKeys(names, code)[k])
    ensures forall k, l :: 0 <= k < l < |RegionKeys(names, code)| ==>
      !(x in Lookup(RegionMembers(names, code), RegionKeys(names, code)[k])
        && x in Lookup(RegionMembers(names, code), RegionKeys(names, code)[l]))
  {
    var keys, c := RegionKeys(names, code), code(x);
    CodesAreCoded(names, code);
    BucketWithin(names, c, code);
    var key := if c.Some? then c.value else UNKNOWN;
    if c.Some? { CodesLaw(names, code, c.value); }
    assert key in keys;
    var k :| 0 <= k < |keys| && keys[k] == key;
    RegionMembersLaw(names, code, k);
    RegionKeysDistinct(names, code);
    forall k, l | 0 <= k < l < |keys|
      ensures !(x in Lookup(RegionMembers(names, code), keys[k]) && x in Lookup(RegionMembers(names, code), keys[l]))
    {
      RegionMembersLaw(names, code, k);
      RegionMembersLaw(names, code, l);
      BucketWithin(names, if keys[k] == UNKNOWN then None else Some(keys[k]), code);
      BucketWithin(names, if keys[l] == UNKNOWN then None else Some(keys[l]), code);
    }
  }

  lemma RegionKeysDistinct(names: seq<string>, code: Classifier)
    requires Coded(code)
    ensures Distinct(RegionKeys(names, code))
  {
    CodesAreCoded(names, code);
    var sorted := SortedKeys(Codes(names, code));
    forall i, j | 0 <= i < j < |sorted| ensures sorted[i] != sorted[j] { LessTotal(sorted[i], sorted[j]); }
    forall i | 0 <= i < |sorted| ensures sorted[i] != UNKNOWN { assert sorted[i] in sorted; }
  }

  /** Exactly which region keys there are: the codes of the classified names, ascending, and `UNKNOWN` at the
      end if some name has none. */
  lemma RegionKeysExactly(names: seq<string>, code: Classifier)
    requires Coded(code)
    ensures var keys := RegionKeys(names, code);
            && (forall c :: c in keys && c != "UNKNOWN" <==> exists x :: x in names && code(x) == Some(c))
            && ("UNKNOWN" in keys <==> exists x :: x in names && code(x) == None)
            && (forall i, j :: 0 <= i < j < |keys| ==> Less(keys[i], keys[j]) || keys[j] == "UNKNOWN")
            && forall i :: 0 <= i < |keys| - 1 ==> keys[i] != "UNKNOWN"
  {
    var keys, sorted := RegionKeys(names, code), SortedKeys(Codes(names, code));
    CodesAreCoded(names, code);
    BucketWithin(names, None, code);
    if Bucket(names, None, code) != [] { assert Bucket(names, None, code)[0] in Bucket(names, None, code); }
    forall c ensures c in Codes(names, code) <==> exists x :: x in names && code(x) == Some(c) {
      CodesLaw(names, code, c);
      BucketWithin(names, Some(c), code);
      if Bucket(names, Some(c), code) != [] { assert Bucket(names, Some(c), code)[0] in Bucket(names, Some(c), code); }
    }
    forall i | 0 <= i < |sorted| ensures sorted[i] != "UNKNOWN" { assert sorted[i] in sorted; }
  }

  // ----- laws: the passes

  lemma FindNamedInPrefix(gs: seq<Node>, more: seq<Node>, name: string)
    requires FindNamed(gs, name) < |gs|
    ensures FindNamed(gs + more, name) == FindNamed(gs, name)
  {
    var i, j := FindNamed(gs, name), FindNamed(gs + more, name);
    assert Name((gs + more)[i]) == name;
    assert j <= i;
    assert (gs + more)[j] == gs[j];
  }

  /** Adding generated groups keeps every other group, and the selector only gains members. */
  lemma WithGeneratedLaw(gs: seq<Node>, made: seq<Node>, names: seq<string>, selector: string, u: iset<string>)
    requires AllGroups(gs) && AllGroups(made) && MembersWithin(gs, u) && MembersWithin(made, u)
    requires forall k :: 0 <= k < |names| ==> names[k] in u
    requires FindNamed(gs, selector) < |gs|
    ensures var r := WithGenerated(gs, made, names, selector);
            && |r| == |gs| + |made| && AllGroups(r) && MembersWithin(r, u)
            && r[|gs|..] == made
            && (forall i :: 0 <= i < |gs| ==> Name(r[i]) == Name(gs[i]))
            && (forall i :: 0 <= i < |gs| && Name(gs[i]) != selector ==> r[i] == gs[i])
            && FindNamed(r, selector) < |gs|
  {
    var all, r := gs + made, WithGenerated(gs, made, names, selector);
    FindNamedInPrefix(gs, made, selector);
    forall i | 0 <= i < |all| ensures IsGroup(all[i]) { if i >= |gs| { assert all[i] == made[i - |gs|]; } }
    forall i, k | 0 <= i < |all| && 0 <= k < |Members(all[i])| ensures Members(all[i])[k] in u {
      if i >= |gs| { assert all[i] == made[i - |gs|]; }
    }
    AugmentLaw(all, selector, names, u);
    if |names| > 0 && selector != "" {
      forall i | 0 <= i < |all| ensures Name(r[i]) == Name(all[i]) { assert Names(r)[i] == Names(all)[i]; }
    }
    var s := FindNamed(gs, selector);
    assert Name(r[s]) == selector;
    assert FindNamed(r, selector) <= s;
  }

  /** What a generating pass does to the selector's own list. */
  lemma WithGeneratedSelector(gs: seq<Node>, made: seq<Node>, names: seq<string>, selector: string)
    requires AllGroups(gs) && FindNamed(gs, selector) < |gs| && selector != ""
    ensures var r := WithGenerated(gs, made, names, selector);
            && FindNamed(r, selector) == FindNamed(gs, selector) < |r|
            && Members(r[FindNamed(r, selector)]) == UnionList(Members(gs[FindNamed(gs, selector)]), names)
  {
    hide Name, Members, AddMembers, IsGroup;
    var i, all := FindNamed(gs, selector), gs + made;
    FindNamedInPrefix(gs, made, selector);
    if |names| > 0 {
      AddMembersLaw(gs[i], names);
      SameNamesFind(all, Augment(all, selector, names), selector);
    }
  }

  lemma SiblingAt(made: seq<Node>, keys: seq<string>, members: map<string, seq<string>>, prefix: string,
                  lbPrefix: string, i: nat)
    requires SiblingList(made, keys, members, prefix, lbPrefix) && i < |made|
    ensures IsGroup(made[i]) && Members(made[i]) == Lookup(members, keys[i / 2])
    ensures Name(made[i]) == (if i % 2 == 0 then prefix else lbPrefix) + keys[i / 2]
  {
    assert Siblings(made, i / 2, keys[i / 2], Lookup(members, keys[i / 2]), prefix, lbPrefix);
  }

  lemma {:induction false} PairNamesAt(keys: seq<string>, prefix: string, lbPrefix: string, i: nat)
    requires i < 2 * |keys|
    ensures PairNames(keys, prefix, lbPrefix)[i] == (if i % 2 == 0 then prefix else lbPrefix) + keys[i / 2]
  {
    if i < 2 * |keys| - 2 { PairNamesAt(keys[..|keys| - 1], prefix, lbPrefix, i); }
  }

  lemma EmittedGroups(made: seq<Node>, keys: seq<string>, members: map<string, seq<string>>, prefix: string,
                      lbPrefix: string, u: iset<string>)
    requires SiblingList(made, keys, members, prefix, lbPrefix)
    requires forall k, x :: 0 <= k < |keys| && x in Lookup(members, keys[k]) ==> x in u
    ensures AllGroups(made) && MembersWithin(made, u) && Names(made) == PairNames(keys, prefix, lbPrefix)
  {
    forall i | 0 <= i < |made| ensures IsGroup(made[i]) && Name(made[i]) == PairNames(keys, prefix, lbPrefix)[i] {
      SiblingAt(made, keys, members, prefix, lbPrefix, i);
      PairNamesAt(keys, prefix, lbPrefix, i);
    }
    forall i, k | 0 <= i < |made| && 0 <= k < |Members(made[i])| ensures Members(made[i])[k] in u {
      SiblingAt(made, keys, members, prefix, lbPrefix, i);
      assert Members(made[i])[k] in Lookup(members, keys[i / 2]);
    }
  }

  /** No group carries a region group's name. */
  ghost predicate NoRegionNames(gs: seq<Node>) {
    forall i :: 0 <= i < |gs| ==> !IsRegionName(Name(gs[i]))
  }

  lemma {:induction false} NoRegionCodes(gs: seq<Node>)
    requires NoRegionNames(gs)
    ensures RegionCodesOf(gs) == [] && RegionListsOf(gs) == map[]
  {
    if gs != [] { NoRegionCodes(gs[..|gs| - 1]); }
  }

  lemma ScanStep(all: seq<Node>, a: Node, b: Node, key: string)
    requires key != "" && Name(a) == REGION + key && Name(b) == LB_REGION + key
    ensures RegionCodesOf(all + [a, b]) == RegionCodesOf(all) + [key]
    ensures RegionListsOf(all + [a, b]) == RegionListsOf(all)[key := Members(a)]
  {
    var r := all + [a, b];
    assert r[..|r| - 1] == all + [a] && (all + [a])[..|all|] == all;
    RegionNameParts(key);
  }

  /** The lists of the given keys. */
  function ListsFor(keys: seq<string>, members: map<string, seq<string>>): (r: map<string, seq<string>>)
    ensures forall k :: k in r <==> k in keys
    ensures forall k :: k in r ==> r[k] == Lookup(members, k)
  {
    if keys == [] then map[] else
      var k := keys[|keys| - 1];
      assert keys == keys[..|keys| - 1] + [k];
      ListsFor(keys[..|keys| - 1], members)[k := Lookup(members, k)]
  }

  /** The scan results after `n` sibling pairs. */
  ghost predicate ScannedPairs(gs: seq<Node>, made: seq<Node>, keys: seq<string>, members: map<string, seq<string>>,
                               n: nat)
    requires n <= |keys| && |made| == 2 * |keys|
  {
    && RegionCodesOf(gs + made[..2 * n]) == keys[..n]
    && RegionListsOf(gs + made[..2 * n]) == ListsFor(keys[..n], members)
  }

  lemma ScannedPairsStep(gs: seq<Node>, made: seq<Node>, keys: seq<string>, members: map<string, seq<string>>, n: nat)
    requires |made| == 2 * |keys| && n < |keys| && keys[n] != ""
    requires Siblings(made, n, keys[n], Lookup(members, keys[n]), REGION, LB_REGION)
    requires ScannedPairs(gs, made, keys, members, n)
    ensures ScannedPairs(gs, made, keys, members, n + 1)
  {
    hide RegionCodesOf, RegionListsOf, Lookup;
    var all, a, b := gs + made[..2 * n], made[2 * n], made[2 * n + 1];
    assert gs + made[..2 * (n + 1)] == all + [a, b] by { TakeTwo(gs, made, 2 * n); }
    assert keys[..n + 1] == keys[..n] + [keys[n]] && keys[..n + 1][..n] == keys[..n] by { TakeOne(keys, n); }
    assert Name(a) == REGION + keys[n] && Name(b) == LB_REGION + keys[n] && Members(a) == Lookup(members, keys[n]);
    ScanStep(all, a, b, keys[n]);
  }

  lemma {:induction false} ScanPairs(gs: seq<Node>, made: seq<Node>, keys: seq<string>,
                                     members: map<string, seq<string>>, n: nat)
    requires NoRegionNames(gs) && "" !in keys && SiblingList(made, keys, members, REGION, LB_REGION) && n <= |keys|
    ensures ScannedPairs(gs, made, keys, members, n)
  {
    if n == 0 {
      assert gs + made[..0] == gs && keys[..0] == [];
      NoRegionCodes(gs);
    } else {
      ScanPairs(gs, made, keys, members, n - 1);
      ScannedPairsStep(gs, made, keys, members, n - 1);
    }
  }

  /** Scanning the groups after the region pass finds exactly the region keys and lists. */
  lemma RegionScan(gs: seq<Node>, made: seq<Node>, keys: seq<string>, members: map<string, seq<string>>)
    requires NoRegionNames(gs) && "" !in keys && SiblingList(made, keys, members, REGION, LB_REGION)
    ensures RegionCodesOf(gs + made) == keys
    ensures RegionListsOf(gs + made) == ListsFor(keys, members)
  {
    ScanPairs(gs, made, keys, members, |keys|);
    assert made[..2 * |keys|] == made && keys[..|keys|] == keys;
  }

  lemma RegionNameParts(key: string)
    requires key != ""
    ensures IsRegionName(REGION + key) && (REGION + key)[8..] == key
    ensures !IsRegionName(LB_REGION + key)
  {
    assert (REGION + key)[..8] == REGION;
    assert (LB_REGION + key)[1] == 'l' && REGION[1] == 'r';
    assert (LB_REGION + key)[..8][1] == 'l';
  }

  lemma {:induction false} ConcatListsWithin(ccs: seq<string>, lists: map<string, seq<string>>, u: iset<string>)
    requires forall k, x :: k in lists && x in lists[k] ==> x in u
    ensures forall x :: x in ConcatLists(ccs, lists) ==> x in u
    ensures (exists k :: 0 <= k < |ccs| && Lookup(lists, ccs[k]) != []) ==> ConcatLists(ccs, lists) != []
  {
    if ccs != [] {
      ConcatListsWithin(ccs[..|ccs| - 1], lists, u);
      if k :| 0 <= k < |ccs| && Lookup(lists, ccs[k]) != [] {
        assert k == |ccs| - 1 || Lookup(lists, ccs[..|ccs| - 1][k]) != [];
      }
    }
  }

  lemma {:induction false} CountriesLaw(ccs: seq<string>, cont: string, at: Classifier)
    ensures forall cc :: cc in Countries(ccs, cont, at) <==> cc in ccs && at(cc) == Some(cont)
  {
    if ccs != [] {
      CountriesLaw(ccs[..|ccs| - 1], cont, at);
      assert ccs == ccs[..|ccs| - 1] + [ccs[|ccs| - 1]];
    }
  }

  /** A listed continent has a country, so with no empty region list its own list is not empty. */
  lemma ContinentListsLaw(ccs: seq<string>, lists: map<string, seq<string>>, at: Classifier, cont: string,
                          u: iset<string>)
    requires cont in Codes(ccs, at)
    requires forall k, x :: k in lists && x in lists[k] ==> x in u
    requires forall cc :: cc in ccs ==> Lookup(lists, cc) != []
    ensures var list := Lookup(ContinentMembers(ccs, lists, at), cont);
            list != [] && forall x :: x in list ==> x in u
  {
    CodesLaw(ccs, at, cont);
    BucketWithin(ccs, Some(cont), at);
    CountriesLaw(ccs, cont, at);
    var b, keys := Bucket(ccs, Some(cont), at), SortedKeys(Countries(ccs, cont, at));
    assert b[0] in b;
    assert b[0] in keys;
    var k :| 0 <= k < |keys| && keys[k] == b[0];
    ConcatListsWithin(keys, lists, u);
  }

  ghost predicate AllIn(s: seq<string>, u: iset<string>) { forall k :: 0 <= k < |s| ==> s[k] in u }

  /** What both generating passes keep: old groups stay in place, the selector only gains members. */
  ghost predicate Extended(gs: seq<Node>, r: seq<Node>, selector: string) {
    && |gs| <= |r| && AllGroups(r)
    && (forall i :: 0 <= i < |gs| ==> Name(r[i]) == Name(gs[i]))
    && (forall i :: 0 <= i < |gs| && Name(gs[i]) != selector ==> r[i] == gs[i])
    && FindNamed(r, selector) < |gs|
  }

  lemma RegionMembersWithin(names: seq<string>, code: Classifier, u: iset<string>)
    requires Coded(code) && AllIn(names, u)
    ensures forall k, x :: 0 <= k < |RegionKeys(names, code)|
              && x in Lookup(RegionMembers(names, code), RegionKeys(names, code)[k])
              ==> x in u
  {
    var keys := RegionKeys(names, code);
    forall k, x | 0 <= k < |keys| && x in Lookup(RegionMembers(names, code), keys[k]) ensures x in u {
      RegionMembersLaw(names, code, k);
      BucketWithin(names, if keys[k] == UNKNOWN then None else Some(keys[k]), code);
    }
  }

  lemma WithClassesLaw(gs: seq<Node>, names: seq<string>, selector: string, code: Classifier, p: Params,
                       u: iset<string>)
    requires Coded(code) && AllGroups(gs) && MembersWithin(gs, u) && FindNamed(gs, selector) < |gs|
    requires AllIn(names, u) && AllIn(PairNames(RegionKeys(names, code), REGION, LB_REGION), u)
    ensures var r := WithClasses(gs, names, selector, code, p);
            && Extended(gs, r, selector) && MembersWithin(r, u)
            && SiblingList(r[|gs|..], RegionKeys(names, code), RegionMembers(names, code), REGION, LB_REGION)
  {
    var keys, members := RegionKeys(names, code), RegionMembers(names, code);
    EmitPairsShape(keys, members, REGION, LB_REGION, p);
    RegionMembersWithin(names, code, u);
    var made := EmitPairs(keys, members, REGION, LB_REGION, p);
    EmittedGroups(made, keys, members, REGION, LB_REGION, u);
    WithGeneratedLaw(gs, made, PairNames(keys, REGION, LB_REGION), selector, u);
  }

  /** The region pass appends, per class, a sibling pair holding exactly that class. */
  lemma WithRegionsLaw(gs: seq<Node>, names: seq<string>, selector: string, t: Tables, p: Params, u: iset<string>)
    requires ValidTables(t) && AllGroups(gs) && MembersWithin(gs, u) && FindNamed(gs, selector) < |gs|
    requires AllIn(names, u) && AllIn(PairNames(RegionKeys(names, ByCountry(t)), REGION, LB_REGION), u)
    ensures var r, code := WithRegions(gs, names, selector, t, p), ByCountry(t);
            && Extended(gs, r, selector) && MembersWithin(r, u)
            && SiblingList(r[|gs|..], RegionKeys(names, code), RegionMembers(names, code), REGION, LB_REGION)
  {
    CountriesAreCoded(t);
    WithClassesLaw(gs, names, selector, ByCountry(t), p, u);
  }

  lemma {:induction false} RegionListsWithin(gs: seq<Node>, u: iset<string>)
    requires MembersWithin(gs, u)
    ensures forall k, x :: k in RegionListsOf(gs) && x in RegionListsOf(gs)[k] ==> x in u
  {
    if gs != [] {
      var init := gs[..|gs| - 1];
      assert forall i :: 0 <= i < |init| ==> init[i] == gs[i];
      RegionListsWithin(init, u);
      var ms := Members(gs[|gs| - 1]);
      forall x | x in ms ensures x in u { var k :| 0 <= k < |ms| && ms[k] == x; }
    }
  }

  lemma WithContinentsLaw(gs: seq<Node>, selector: string, t: Tables, p: Params, u: iset<string>)
    requires AllGroups(gs) && MembersWithin(gs, u) && FindNamed(gs, selector) < |gs|
    requires AllIn(PairNames(SortedKeys(Codes(RegionCodesOf(gs), ByContinent(t))), CONTINENT, LB_CONTINENT), u)
    ensures var r, keys := WithContinents(gs, selector, t, p), SortedKeys(Codes(RegionCodesOf(gs), ByContinent(t)));
            && Extended(gs, r, selector) && MembersWithin(r, u)
            && SiblingList(r[|gs|..], keys, ContinentMembers(RegionCodesOf(gs), RegionListsOf(gs), ByContinent(t)),
                           CONTINENT, LB_CONTINENT)
  {
    var ccs, lists, at := RegionCodesOf(gs), RegionListsOf(gs), ByContinent(t);
    var keys, members := SortedKeys(Codes(ccs, at)), ContinentMembers(ccs, lists, at);
    EmitPairsShape(keys, members, CONTINENT, LB_CONTINENT, p);
    RegionListsWithin(gs, u);
    forall k, x | 0 <= k < |keys| && x in Lookup(members, keys[k]) ensures x in u {
      assert keys[k] in keys;
      ConcatListsWithin(SortedKeys(Countries(ccs, keys[k], at)), lists, u);
    }
    var made := EmitPairs(keys, members, CONTINENT, LB_CONTINENT, p);
    EmittedGroups(made, keys, members, CONTINENT, LB_CONTINENT, u);
    WithGeneratedLaw(gs, made, PairNames(keys, CONTINENT, LB_CONTINENT), selector, u);
  }

  /** The countries' buckets one after the other. */
  function ConcatBuckets(ccs: seq<string>, names: seq<string>, code: Classifier): (r: seq<string>) {
    if ccs == [] then [] else ConcatBuckets(ccs[..|ccs| - 1], names, code) + Bucket(names, Some(ccs[|ccs| - 1]), code)
  }

  lemma {:induction false} ConcatListsIsBuckets(ccs: seq<string>, lists: map<string, seq<string>>, names: seq<string>,
                                                code: Classifier)
    requires forall cc :: cc in ccs ==> Lookup(lists, cc) == Bucket(names, Some(cc), code)
    ensures ConcatLists(ccs, lists) == ConcatBuckets(ccs, names, code)
  {
    if ccs != [] { ConcatListsIsBuckets(ccs[..|ccs| - 1], lists, names, code); }
  }

  lemma RegionListIsBucket(names: seq<string>, code: Classifier, cc: string)
    requires Coded(code) && cc in RegionKeys(names, code) && cc != UNKNOWN
    ensures Lookup(ListsFor(RegionKeys(names, code), RegionMembers(names, code)), cc) == Bucket(names, Some(cc), code)
  {
    var keys := RegionKeys(names, code);
    var k :| 0 <= k < |keys| && keys[k] == cc;
    RegionMembersLaw(names, code, k);
  }

  /** Each continent's list is the concatenation of its countries' lists in ascending code
      order, and it is not empty. */
  lemma ContinentsConcatenate(names: seq<string>, t: Tables, cont: string)
    requires ValidTables(t)
    requires cont in Codes(RegionKeys(names, ByCountry(t)), ByContinent(t))
    ensures var code, at := ByCountry(t), ByContinent(t);
            var keys := RegionKeys(names, code);
            var list := Lookup(ContinentMembers(keys, ListsFor(keys, RegionMembers(names, code)), at), cont);
            && list == ConcatBuckets(SortedKeys(Countries(keys, cont, at)), names, code)
            && list != []
  {
    CountriesAreCoded(t);
    var code, at := ByCountry(t), ByContinent(t);
    var keys := RegionKeys(names, code);
    var lists := ListsFor(keys, RegionMembers(names, code));
    CountriesLaw(keys, cont, at);
    var ccs := SortedKeys(Countries(keys, cont, at));
    forall cc | cc in ccs ensures Lookup(lists, cc) == Bucket(names, Some(cc), code) {
      RegionListIsBucket(names, code, cc);
    }
    ConcatListsIsBuckets(ccs, lists, names, code);
    RegionListsFull(names, code, EVERYTHING);
    ContinentListsLaw(keys, lists, at, cont, EVERYTHING);
  }

  lemma RegionListsFull(names: seq<string>, code: Classifier, u: iset<string>)
    requires Coded(code) && AllIn(names, u)
    ensures var keys := RegionKeys(names, code);
            var lists := ListsFor(keys, RegionMembers(names, code));
            && (forall k, x :: k in lists && x in lists[k] ==> x in u)
            && (forall k :: k in keys ==> Lookup(lists, k) != [])
  {
    var keys := RegionKeys(names, code);
    forall key | key in keys
      ensures Lookup(RegionMembers(names, code), key) != []
      ensures forall x :: x in Lookup(RegionMembers(names, code), key) ==> x in u
    {
      var k :| 0 <= k < |keys| && keys[k] == key;
      RegionMembersLaw(names, code, k);
      BucketWithin(names, if key == UNKNOWN then None else Some(key), code);
    }
  }
}
