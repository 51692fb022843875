/** From the rows of the table and the cached documents to the sources of a build, the contributors of
    its rules, and the routing: all in terms of rows, documents and custom rule sets. */
module TableLaws {
  import opened Text
  import opened Sorting
  import opened Yaml
  import opened RuleLine
  import opened Subscriptions
  import opened Namespace
  import opened MergeNodes
  import opened RuleMerge
  import opened RuleProviders
  import opened Pipeline
  import opened BuildLaws

  // ----- positions

  lemma {:induction false} EnabledAt(rows: seq<Row>) returns (at: seq<nat>)
    ensures Selects(rows, at, EnabledRows(rows))
    ensures forall i: nat :: i in at <==> i < |rows| && rows[i].enable
  {
    hide Selects;
    if rows == [] {
      at := [];
      assert Selects(rows, at, EnabledRows(rows)) by { NothingSelected(rows); }
    } else {
      var init, last := rows[..|rows| - 1], rows[|rows| - 1];
      assert rows == init + [last];
      at := EnabledAt(init);
      SelectsMore(init, at, EnabledRows(init), last);
      assert EnabledRows(rows) == if last.enable then EnabledRows(init) + [last] else EnabledRows(init);
      assert forall i :: 0 <= i < |init| ==> rows[i] == init[i];
      if last.enable { at := at + [|init|]; }
    }
  }

  /** The rows that have a cached document, in order. */
  lemma {:induction false} CachedAt(rows: seq<Row>, docs: map<string, Node>) returns (at: seq<nat>)
    ensures |at| == |ReadSources(rows, docs)|
    ensures forall k :: 0 <= k < |at| ==>
              at[k] < |rows| && rows[at[k]].name in docs
              && ReadSources(rows, docs)[k] == ReadSource(rows[at[k]], docs[rows[at[k]].name])
    ensures forall k, l :: 0 <= k < l < |at| ==> at[k] < at[l]
    ensures forall i: nat :: i in at <==> i < |rows| && rows[i].name in docs
  {
    hide ReadSource;
    if rows == [] {
      at := [];
    } else {
      var init, last := rows[..|rows| - 1], rows[|rows| - 1];
      at := CachedAt(init, docs);
      assert forall k :: 0 <= k < |at| ==> init[at[k]] == rows[at[k]];
      if last.name in docs { at := at + [|init|]; }
    }
  }

  // ----- the sources of a build

  ghost predicate Holds(root: Node, key: string, ns: seq<Node>) {
    match ChildOfKind(root, key, Sequence) case None => ns == [] case Some(n) => ns == n.content
  }

  /** `c` is the document as the build reads it for the row. */
  ghost predicate ReadFrom(c: Contribution, row: Row, doc: Node) {
    var root := if doc.kind == Document && doc.content != [] then doc.content[0] else doc;
    && c.name == row.name && c.priority == row.priority
    && Holds(root, "proxies", c.proxies) && Holds(root, "proxy-groups", c.groups)
    && (exists rules :: Holds(root, "rules", rules) && c.rules == ScalarValues(rules))
    && c.providers == ChildOfKind(root, "rule-providers", Mapping)
  }

  lemma ReadSourceIs(row: Row, doc: Node)
    ensures ReadFrom(ReadSource(row, doc), row, doc)
  {
    assert Holds(DocRoot(doc), "rules", SequenceAt(DocRoot(doc), "rules"));
  }

  lemma ReadOneWay(c: Contribution, row: Row, doc: Node)
    requires ReadFrom(c, row, doc)
    ensures c == ReadSource(row, doc)
  {
  }

  /** The row takes part: it is enabled and the cache has its document. */
  predicate Active(inp: Input, r: Row) { r in inp.rows && r.enable && r.name in inp.docs }

  /** `cs` are the documents of the active rows, read in the order of falling priority, equal priorities in
      table order; `at` says where their rows are. */
  ghost predicate MergeOrder(inp: Input, cs: seq<Contribution>, at: seq<nat>) {
    && |at| == |cs|
    && (forall i: nat :: i in at <==> i < |inp.rows| && inp.rows[i].enable && inp.rows[i].name in inp.docs)
    && (forall k :: 0 <= k < |at| ==> at[k] < |inp.rows| && inp.rows[at[k]].name in inp.docs
                                      && ReadFrom(cs[k], inp.rows[at[k]], inp.docs[inp.rows[at[k]].name]))
    && forall k, l :: 0 <= k < l < |at| ==>
         var p, q := inp.rows[at[k]].priority, inp.rows[at[l]].priority; p > q || (p == q && at[k] < at[l])
  }

  lemma SortedAt(rows: seq<Row>) returns (at: seq<nat>)
    ensures |at| == |SortedRows(rows)|
    ensures forall k :: 0 <= k < |at| ==> at[k] < |rows| && SortedRows(rows)[k] == rows[at[k]]
    ensures forall i: nat :: i in at <==> i < |rows| && rows[i].enable
    ensures forall k, l :: 0 <= k < l < |at| ==>
              var p, q := rows[at[k]].priority, rows[at[l]].priority; p > q || (p == q && at[k] < at[l])
  {
    hide EnabledRows, SortPerm;
    var en := EnabledRows(rows);
    var pos := EnabledAt(rows);
    HigherPriorityIsStrictWeak();
    StableSortIsStable(en, HigherPriority);
    var perm := SortPerm(en, HigherPriority, |en|);
    at := seq(|en|, k requires 0 <= k < |en| => pos[perm[k]]);
    forall k, l | 0 <= k < l < |at|
      ensures var p, q := rows[at[k]].priority, rows[at[l]].priority; p > q || (p == q && at[k] < at[l])
    {
      assert Before(en, HigherPriority, perm[k], perm[l]);
    }
    forall i: nat ensures i in at <==> i < |rows| && rows[i].enable {
      if i in pos {
        var m :| 0 <= m < |pos| && pos[m] == i;
        assert m in perm;
        var k :| 0 <= k < |perm| && perm[k] == m;
        assert at[k] == i;
      }
    }
  }

  /** Exactly the sources a build merges, and their order. */
  lemma SourcesExactly(inp: Input) returns (at: seq<nat>)
    ensures MergeOrder(inp, Sources(inp), at)
  {
    hide SortedRows, ReadSources, ReadSource, ReadFrom;
    var rows := SortedRows(inp.rows);
    var to := SortedAt(inp.rows);
    var from := CachedAt(rows, inp.docs);
    at := seq(|from|, k requires 0 <= k < |from| => to[from[k]]);
    forall k | 0 <= k < |at| ensures ReadFrom(Sources(inp)[k], rows[from[k]], inp.docs[rows[from[k]].name]) {
      ReadSourceIs(rows[from[k]], inp.docs[rows[from[k]].name]);
    }
    forall i: nat ensures i in at <==> i < |inp.rows| && inp.rows[i].enable && inp.rows[i].name in inp.docs {
      if i in at { var k :| 0 <= k < |at| && at[k] == i; assert from[k] in from && to[from[k]] in to; }
      if i in to && inp.rows[i].name in inp.docs {
        var m :| 0 <= m < |to| && to[m] == i;
        assert m in from;
        var k :| 0 <= k < |from| && from[k] == m;
        assert at[k] == i;
      }
    }
  }

  lemma ActiveIsSource(inp: Input, r: Row) returns (i: nat)
    requires Active(inp, r)
    ensures i < |Sources(inp)| && Sources(inp)[i] == ReadSource(r, inp.docs[r.name])
  {
    hide Sources, ReadSource, ReadFrom;
    var at := SourcesExactly(inp);
    var n :| 0 <= n < |inp.rows| && inp.rows[n] == r;
    assert n in at;
    i :| 0 <= i < |at| && at[i] == n;
    ReadOneWay(Sources(inp)[i], r, inp.docs[r.name]);
  }

  lemma SourceIsActive(inp: Input, i: nat) returns (r: Row)
    requires i < |Sources(inp)|
    ensures Active(inp, r) && Sources(inp)[i] == ReadSource(r, inp.docs[r.name])
  {
    hide Sources, ReadSource, ReadFrom;
    var at := SourcesExactly(inp);
    assert at[i] in at;
    r := inp.rows[at[i]];
    ReadOneWay(Sources(inp)[i], r, inp.docs[r.name]);
  }

  // ----- the rules a source contributes

  /** The source's own block defines a provider under this key, as a mapping. */
  ghost predicate DefinesProvider(c: Contribution, key: string) {
    c.providers.Some? && exists m: nat :: KeyAt(c.providers.value.content, key, m)
                                          && c.providers.value.content[2 * m + 1].kind == Mapping
  }

  lemma {:induction false} PairKeysOf(source: string, c: seq<Node>, n: nat, key: string)
    requires 2 * n <= |c|
    ensures |ProviderPairs(source, c, n)| % 2 == 0
    ensures Prefixed(source, key) in PairKeys(ProviderPairs(source, c, n), |ProviderPairs(source, c, n)| / 2) <==>
            exists m: nat :: m < n && KeyAt(c, key, m) && c[2 * m + 1].kind == Mapping
  {
    hide ProviderValue;
    if n > 0 {
      PairKeysOf(source, c, n - 1, key);
      var init, all, k, v := ProviderPairs(source, c, n - 1), ProviderPairs(source, c, n), c[2 * n - 2], c[2 * n - 1];
      assert KeyAt(c, key, n - 1) <==> k.value == key;
      assert c[2 * (n - 1) + 1] == v;
      hide KeyAt;
      if v.kind == Mapping {
        PairKeysSnoc(init, ProviderPair(source, k, v));
        SamePrefix(source, k.value, key);
      } else {
        assert all == init;
      }
    }
  }

  lemma {:induction false} PairKeysPrefix(a: seq<Node>, b: seq<Node>, n: nat)
    requires 2 * n <= |a| && a <= b
    ensures PairKeys(a, n) == PairKeys(b, n)
  {
    if n > 0 { PairKeysPrefix(a, b, n - 1); }
  }

  lemma PairKeysSnoc(a: seq<Node>, pair: seq<Node>)
    requires |a| % 2 == 0 && |pair| == 2
    ensures |a + pair| / 2 == |a| / 2 + 1 && PairKeys(a + pair, |a| / 2 + 1) == PairKeys(a, |a| / 2) + {pair[0].value}
  {
    PairKeysPrefix(a, a + pair, |a| / 2);
  }

  lemma SamePrefix(source: string, a: string, b: string)
    ensures Prefixed(source, a) == Prefixed(source, b) <==> a == b
  {
    assert Prefixed(source, a)[|source| + 1..] == a && Prefixed(source, b)[|source| + 1..] == b;
  }

  lemma NamespacedKeys(c: Contribution, key: string)
    ensures Prefixed(c.name, key) in ProviderKeys(Namespaced(c).providers) <==> DefinesProvider(c, key)
  {
    hide ProviderValue, ProviderPairs, PairKeys;
    if c.providers.Some? {
      var block := c.providers.value.content;
      PairKeysOf(c.name, block, |block| / 2, key);
    }
  }

  /** Namespacing prefixes the provider of a RULE-SET rule and makes no other rule one. */
  lemma NamespacedProvider(rule: string, source: string)
    requires CommaFree(source)
    ensures Provider(NamespacedRule(rule, source))
         == if Provider(rule).None? then None else Some(Prefixed(source, Provider(rule).value))
  {
    hide Split, SkipModifiers;
    var f := Fields(rule);
    NamespacedFieldsLaw(rule, source);
    if |f| >= 2 && f[0] != "RULE-SET" { RefIsNoRuleSet(source, f[0]); }
  }

  lemma RefIsNoRuleSet(source: string, name: string)
    requires name != "RULE-SET"
    ensures PrefixedRef(source, name) != "RULE-SET"
  {
    assert Prefixed(source, name)[|source|] == '_';
    assert '_' in Prefixed(source, name) && '_' !in "RULE-SET";
  }

  /** A source keeps exactly its rules that are no RULE-SET rules, and the RULE-SET rules whose provider its
      own block defines. */
  ghost predicate KeptRule(c: Contribution, rule: string) {
    Provider(rule).None? || DefinesProvider(c, Provider(rule).value)
  }

  /** `part` is what the source contributes: of the rules it keeps, in order, all but the last. */
  ghost predicate ContributedPart(c: Contribution, part: seq<string>) {
    exists at: seq<nat>, kept: seq<string> ::
      && Selects(c.rules, at, kept)
      && (forall i: nat :: i in at <==> i < |c.rules| && KeptRule(c, c.rules[i]))
      && part == if kept == [] then [] else kept[..|kept| - 1]
  }

  lemma BackedExactly(c: Contribution, rule: string)
    requires CommaFree(c.name)
    ensures Backed(NamespacedRule(rule, c.name), ProviderKeys(Namespaced(c).providers)) <==> KeptRule(c, rule)
  {
    hide NamespacedRule, Provider, ProviderKeys, Namespaced, DefinesProvider, Prefixed;
    NamespacedProvider(rule, c.name);
    if Provider(rule).Some? { NamespacedKeys(c, Provider(rule).value); }
  }

  lemma {:induction false} BackedRawAt(c: Contribution, rules: seq<string>) returns (at: seq<nat>)
    requires CommaFree(c.name)
    ensures Selects(rules, at, BackedRaw(rules, c.name, ProviderKeys(Namespaced(c).providers)))
    ensures forall i: nat :: i in at <==> i < |rules| && KeptRule(c, rules[i])
  {
    hide Selects, KeptRule, Backed, NamespacedRule, ProviderKeys, Namespaced;
    if rules == [] {
      at := [];
      NothingSelected(rules);
    } else {
      var init, last := rules[..|rules| - 1], rules[|rules| - 1];
      assert rules == init + [last];
      assert forall i :: 0 <= i < |init| ==> rules[i] == init[i];
      at := BackedRawAt(c, init);
      BackedExactly(c, last);
      var keys := ProviderKeys(Namespaced(c).providers);
      SelectsMore(init, at, BackedRaw(init, c.name, keys), last);
      assert BackedRaw(rules, c.name, keys)
             == if KeptRule(c, last) then BackedRaw(init, c.name, keys) + [last] else BackedRaw(init, c.name, keys);
      if KeptRule(c, last) { at := at + [|init|]; }
    }
  }

  /** Exactly the rules, as the source wrote them, that it contributes. */
  lemma RawPartExactly(c: Contribution)
    requires CommaFree(c.name)
    ensures ContributedPart(c, RawPart(c))
  {
    hide Selects, KeptRule, ProviderKeys, Namespaced;
    var at := BackedRawAt(c, c.rules);
  }

  // ----- the contributors

  /** The rules, as the source wrote them, that row `r` contributes. */
  function RowRules(inp: Input, r: Row): (rules: seq<string>)
    requires r.name in inp.docs
  {
    RawPart(ReadSource(r, inp.docs[r.name]))
  }

  /** `c` is what the active row `r` contributes: under its name and its priority, and not nothing. */
  ghost predicate FromRow(inp: Input, r: Row, c: Contributor) {
    && Active(inp, r) && RowRules(inp, r) != []
    && c == Contributor(r.name, r.priority, RewriteRules(r.name, RowRules(inp, r)))
  }

  ghost predicate FromSomeRow(inp: Input, c: Contributor) { exists r :: FromRow(inp, r, c) }

  lemma PartContributed(c: Contribution)
    ensures |Namespaced(c).rules| > 1 <==> RawPart(c) != []
    ensures RawPart(c) != [] ==>
              UpstreamPart(Namespaced(c)) == [Contributor(c.name, c.priority, RewriteRules(c.name, RawPart(c)))]
    ensures RawPart(c) == [] ==> UpstreamPart(Namespaced(c)) == []
  {
    hide RewriteProxies, RewriteGroups, RewriteRules, BackedRules, BackedRaw, ProviderKeys;
    BackedIsRewritten(c.rules, c.name, ProviderKeys(Namespaced(c).providers));
    RewrittenLength(c.name, BackedRaw(c.rules, c.name, ProviderKeys(Namespaced(c).providers)));
    if |Namespaced(c).rules| > 1 { PartIsRewritten(c); }
  }

  lemma RewrittenLength(source: string, rules: seq<string>)
    ensures |RewriteRules(source, rules)| == |rules|
  {
  }

  /** Where each upstream contributor comes from. */
  lemma {:induction false} UpstreamAt(raw: seq<Contribution>) returns (at: seq<nat>)
    ensures |at| == |UpstreamParts(NamespacedAll(raw))|
    ensures forall k :: 0 <= k < |at| ==>
              && at[k] < |raw| && RawPart(raw[at[k]]) != []
              && UpstreamParts(NamespacedAll(raw))[k]
                 == Contributor(raw[at[k]].name, raw[at[k]].priority,
                                RewriteRules(raw[at[k]].name, RawPart(raw[at[k]])))
    ensures forall k, l :: 0 <= k < l < |at| ==> at[k] < at[l]
    ensures forall i: nat :: i < |raw| && RawPart(raw[i]) != [] ==> i in at
  {
    hide Namespaced, RawPart, UpstreamPart, RewriteRules;
    if raw == [] {
      at := [];
    } else {
      var init, last, cs := raw[..|raw| - 1], raw[|raw| - 1], NamespacedAll(raw);
      at := UpstreamAt(init);
      assert cs[..|cs| - 1] == NamespacedAll(init) && cs[|cs| - 1] == Namespaced(last);
      PartContributed(last);
      assert forall i :: 0 <= i < |init| ==> raw[i] == init[i];
      if RawPart(last) != [] { at := at + [|init|]; }
    }
  }

  lemma {:induction false} CustomAt(customs: seq<Contributor>) returns (at: seq<nat>)
    ensures Selects(customs, at, CustomParts(customs))
    ensures forall i: nat :: i in at <==> i < |customs| && customs[i].rules != []
  {
    hide Selects;
    if customs == [] {
      at := [];
      NothingSelected(customs);
    } else {
      var init, last := customs[..|customs| - 1], customs[|customs| - 1];
      assert customs == init + [last];
      at := CustomAt(init);
      SelectsMore(init, at, CustomParts(init), last);
      assert CustomParts(customs) == if last.rules != [] then CustomParts(init) + [last] else CustomParts(init);
      assert forall i :: 0 <= i < |init| ==> customs[i] == init[i];
      if last.rules != [] { at := at + [|init|]; }
    }
  }

  /** The first `n` contributors are those of the active rows, the others the custom rule sets with rules. */
  ghost predicate ContributorsAre(inp: Input, cs: seq<Contributor>, n: nat) {
    && n <= |cs|
    && (forall k :: 0 <= k < n ==> FromSomeRow(inp, cs[k]))
    && (forall k :: n <= k < |cs| ==> cs[k] in inp.customs && cs[k].rules != [])
    && (forall r :: Active(inp, r) && RowRules(inp, r) != [] ==> exists k :: 0 <= k < n && FromRow(inp, r, cs[k]))
    && (forall s :: s in inp.customs && s.rules != [] ==> exists k :: n <= k < |cs| && cs[k] == s)
  }

  /** Every contributor is an active row's, in front, or a custom rule set with rules, behind them, whole
      and with its own priority; and every such row and rule set has its contributor. */
  lemma ContributorsExactly(inp: Input)
    ensures ContributorsAre(inp, ContributorsOf(inp), |UpstreamParts(NamespacedAll(Sources(inp)))|)
  {
    hide Sources, RowRules, RawPart, ReadSource, RewriteRules, NamespacedAll, UpstreamParts, CustomParts;
    var raw, cs := Sources(inp), ContributorsOf(inp);
    var up, own := UpstreamParts(NamespacedAll(raw)), CustomParts(inp.customs);
    var n := |up|;
    var at := UpstreamAt(raw);
    var to := CustomAt(inp.customs);
    forall k | 0 <= k < n ensures FromSomeRow(inp, cs[k]) {
      var r := SourceIsActive(inp, at[k]);
      RowRulesAre(inp, r);
      assert FromRow(inp, r, cs[k]);
    }
    forall k | n <= k < |cs| ensures cs[k] in inp.customs && cs[k].rules != [] {
      assert cs[k] == own[k - n] && to[k - n] in to;
    }
    forall r | Active(inp, r) && RowRules(inp, r) != [] ensures exists k :: 0 <= k < n && FromRow(inp, r, cs[k]) {
      var i := ActiveIsSource(inp, r);
      RowRulesAre(inp, r);
      assert i in at;
      var k :| 0 <= k < |at| && at[k] == i;
      assert FromRow(inp, r, cs[k]);
    }
    forall s | s in inp.customs && s.rules != [] ensures exists k :: n <= k < |cs| && cs[k] == s {
      var i :| 0 <= i < |inp.customs| && inp.customs[i] == s;
      assert i in to;
      var k :| 0 <= k < |to| && to[k] == i;
      assert cs[n + k] == own[k] == s;
    }
  }

  lemma RowRulesAre(inp: Input, r: Row)
    requires Active(inp, r)
    ensures RowRules(inp, r) == RawPart(ReadSource(r, inp.docs[r.name]))
    ensures ReadSource(r, inp.docs[r.name]).name == r.name && ReadSource(r, inp.docs[r.name]).priority == r.priority
  {
  }

  // ----- routing by rows and custom rule sets

  /** The first rule of the row's document, as written there, that the traffic meets. */
  function RowHit(inp: Input, r: Row, hit: string -> bool): (rule: Option<string>)
    requires r.name in inp.docs
  {
    FirstHit(RowRules(inp, r), RawHit(r.name, hit))
  }

  /** The smaller priority comes first, and the smaller name among equal priorities. */
  ghost predicate Sooner(p: int, n: string, q: int, m: string) { p < q || (p == q && Less(n, m)) }

  /** Row `r` decides the traffic: no other row and no custom rule set with a match comes before it. */
  ghost predicate RowDecides(inp: Input, hit: string -> bool, r: Row) {
    && Active(inp, r) && RowHit(inp, r, hit).Some?
    && (forall q :: Active(inp, q) && q != r && RowHit(inp, q, hit).Some? ==>
         Sooner(r.priority, r.name, q.priority, q.name))
    && forall s :: s in inp.customs && FirstHit(s.rules, hit).Some? ==> !Sooner(s.priority, s.name, r.priority, r.name)
  }

  /** Custom rule set `k` decides: of several with one priority and name, the first. */
  ghost predicate CustomDecides(inp: Input, hit: string -> bool, k: nat) {
    && k < |inp.customs| && FirstHit(inp.customs[k].rules, hit).Some?
    && (forall q :: Active(inp, q) && RowHit(inp, q, hit).Some? ==>
         Sooner(inp.customs[k].priority, inp.customs[k].name, q.priority, q.name))
    && forall l :: 0 <= l < |inp.customs| && l != k && FirstHit(inp.customs[l].rules, hit).Some? ==>
         var s, u := inp.customs[k], inp.customs[l];
         Sooner(s.priority, s.name, u.priority, u.name) || (s.priority == u.priority && s.name == u.name && k < l)
  }

  lemma RowHitIs(inp: Input, r: Row, c: Contributor, hit: string -> bool)
    requires FromRow(inp, r, c)
    ensures FirstHit(c.rules, hit) == if RowHit(inp, r, hit).None? then None
                                      else Some(NamespacedRule(RowHit(inp, r, hit).value, r.name))
  {
    hide RowRules, NamespacedRule, FirstHit, RewriteRules;
    FirstHitOfRewritten(RowRules(inp, r), r.name, hit);
  }

  lemma NoRulesNoHit(hit: string -> bool)
    ensures FirstHit([], hit).None?
  {
  }

  lemma UpstreamApart(inp: Input, k: nat, l: nat)
    requires ValidTable(inp.rows) && k < |UpstreamParts(NamespacedAll(Sources(inp)))| && k != l
    requires l < |UpstreamParts(NamespacedAll(Sources(inp)))|
    ensures ContributorsOf(inp)[k].name != ContributorsOf(inp)[l].name
  {
    hide Sources, RawPart, RewriteRules, NamespacedAll, UpstreamParts;
    SourcesNamed(inp);
    var at := UpstreamAt(Sources(inp));
    assert at[k] != at[l];
  }

  lemma RowIsDecider(inp: Input, hit: string -> bool, r: Row) returns (i: nat)
    requires ValidTable(inp.rows) && RowDecides(inp, hit, r)
    ensures i < |ContributorsOf(inp)| && Decides(ContributorsOf(inp), hit, i) && FromRow(inp, r, ContributorsOf(inp)[i])
  {
    hide Sources, RowRules, RowHit, FirstHit, NamespacedRule, RewriteRules, NamespacedAll, UpstreamParts,
         ContributorsOf;
    var cs, n := ContributorsOf(inp), |UpstreamParts(NamespacedAll(Sources(inp)))|;
    ContributorsExactly(inp);
    HitNeedsRules(inp, r, hit);
    i :| 0 <= i < n && FromRow(inp, r, cs[i]);
    RowHitIs(inp, r, cs[i], hit);
    forall j: nat | j < |cs| && j != i && FirstHit(cs[j].rules, hit).Some?
      ensures || cs[i].priority < cs[j].priority
              || (cs[i].priority == cs[j].priority
                  && (Less(cs[i].name, cs[j].name) || (cs[i].name == cs[j].name && i < j)))
    {
      if j < n {
        var q := UpstreamIsRow(inp, j);
        UpstreamApart(inp, i, j);
        RowHitIs(inp, q, cs[j], hit);
      } else {
        LessTotal(cs[i].name, cs[j].name);
      }
    }
  }

  lemma HitNeedsRules(inp: Input, r: Row, hit: string -> bool)
    requires r.name in inp.docs && RowHit(inp, r, hit).Some?
    ensures RowRules(inp, r) != []
  {
    hide RowRules;
  }

  /** The served rule sends the traffic to `x`, or to the fallback if the group `x` was removed. */
  ghost predicate ServedTo(inp: Input, hit: string -> bool, x: string) {
    var served := FirstHit(Build(inp).rules.rules, hit);
    served.Some? && Target(served.value) == Some(if x in RemovedBy(inp) then inp.fallback else x)
  }

  /** Routing, by rows: when row `r` decides, the traffic goes where the first match among the rules of its
      document sends it, behind the row's name unless that is a built-in. */
  lemma BuildRoutesByRow(inp: Input, hit: string -> bool, r: Row)
    requires ValidTable(inp.rows) && TargetName(inp.fallback) && Matcher(hit) && RowDecides(inp, hit, r)
    requires WellFormed(RowHit(inp, r, hit).value)
    ensures var t := Target(RowHit(inp, r, hit).value).value;
            ServedTo(inp, hit, if BuiltIn(t) then t else r.name + "_" + t)
  {
    hide Build, RemovedBy, Sources, RowRules, FirstHit, NamespacedRule, RewriteRules, NamespacedAll, ContributorsOf,
         Target, Decides, RowDecides, WellFormedFields, PrefixedRef, Fields, Matcher, RawPart, Provider;
    var i := RowIsDecider(inp, hit, r);
    assert Active(inp, r) && RowHit(inp, r, hit).Some? by { DecidingIsActive(inp, hit, r); }
    var raw := RowHit(inp, r, hit).value;
    RowHitIs(inp, r, ContributorsOf(inp)[i], hit);
    BuildRoutesLayered(inp, hit, i);
    RowIsCommaFree(inp, r);
    WellFormedHasTarget(raw);
    NamespacedTarget(raw, r.name);
    RefIs(r.name, Target(raw).value);
  }

  lemma DecidingIsActive(inp: Input, hit: string -> bool, r: Row)
    requires RowDecides(inp, hit, r)
    ensures Active(inp, r) && RowHit(inp, r, hit).Some?
  {
    hide RowHit;
  }

  lemma WellFormedHasTarget(rule: string)
    requires WellFormed(rule)
    ensures Target(rule).Some?
  {
  }

  lemma RowIsCommaFree(inp: Input, r: Row)
    requires ValidTable(inp.rows) && Active(inp, r)
    ensures CommaFree(r.name)
  {
    var i :| 0 <= i < |inp.rows| && inp.rows[i] == r;
    LowerNameHasNoUnderscore(r.name, "");
  }

  /** The custom rule sets with rules stand behind the upstream contributors, in order. */
  lemma CustomsBehind(inp: Input) returns (at: seq<nat>)
    ensures var cs, n := ContributorsOf(inp), |UpstreamParts(NamespacedAll(Sources(inp)))|;
            && |cs| == n + |at|
            && (forall m :: 0 <= m < |at| ==> at[m] < |inp.customs| && cs[n + m] == inp.customs[at[m]])
            && (forall k, l :: 0 <= k < l < |at| ==> at[k] < at[l])
            && forall k: nat :: k < |inp.customs| && inp.customs[k].rules != [] ==> k in at
  {
    hide Sources, NamespacedAll, UpstreamParts, CustomParts;
    at := CustomAt(inp.customs);
  }

  lemma CustomIsDecider(inp: Input, hit: string -> bool, k: nat) returns (i: nat)
    requires CustomDecides(inp, hit, k)
    ensures i < |ContributorsOf(inp)| && Decides(ContributorsOf(inp), hit, i)
            && ContributorsOf(inp)[i] == inp.customs[k]
  {
    hide Sources, RowRules, RowHit, FirstHit, NamespacedRule, RewriteRules, NamespacedAll, UpstreamParts,
         ContributorsOf,
         CustomDecides;
    var cs, n := ContributorsOf(inp), |UpstreamParts(NamespacedAll(Sources(inp)))|;
    CustomHits(inp, hit, k);
    NoRulesNoHit(hit);
    var at := CustomsBehind(inp);
    var m :| 0 <= m < |at| && at[m] == k;
    i := n + m;
    forall j: nat | j < |cs| && j != i && FirstHit(cs[j].rules, hit).Some?
      ensures || cs[i].priority < cs[j].priority
              || (cs[i].priority == cs[j].priority
                  && (Less(cs[i].name, cs[j].name) || (cs[i].name == cs[j].name && i < j)))
    {
      if j < n {
        CustomBeforeRow(inp, hit, k, j);
      } else {
        assert cs[n + (j - n)] == inp.customs[at[j - n]];
        CustomBeforeCustom(inp, hit, k, at[j - n]);
        if m < j - n { assert at[m] < at[j - n]; } else { assert at[j - n] < at[m]; }
      }
    }
  }

  lemma CustomHits(inp: Input, hit: string -> bool, k: nat)
    requires CustomDecides(inp, hit, k)
    ensures k < |inp.customs| && FirstHit(inp.customs[k].rules, hit).Some?
  {
    hide RowHit, FirstHit;
  }

  lemma UpstreamIsRow(inp: Input, j: nat) returns (q: Row)
    requires j < |UpstreamParts(NamespacedAll(Sources(inp)))|
    ensures j < |ContributorsOf(inp)| && FromRow(inp, q, ContributorsOf(inp)[j])
  {
    hide Sources, NamespacedAll, UpstreamParts, ContributorsOf, FromRow;
    ContributorsExactly(inp);
    var cs := ContributorsOf(inp);
    assert FromSomeRow(inp, cs[j]);
    q :| FromRow(inp, q, cs[j]);
  }

  lemma CustomBeforeRow(inp: Input, hit: string -> bool, k: nat, j: nat)
    requires CustomDecides(inp, hit, k) && j < |UpstreamParts(NamespacedAll(Sources(inp)))|
    requires j < |ContributorsOf(inp)| && FirstHit(ContributorsOf(inp)[j].rules, hit).Some?
    ensures var s, c := inp.customs[k], ContributorsOf(inp)[j];
            s.priority < c.priority || (s.priority == c.priority && Less(s.name, c.name))
  {
    hide Sources, RowRules, RowHit, FirstHit, RewriteRules, NamespacedAll, UpstreamParts, ContributorsOf,
         NamespacedRule;
    var q := UpstreamIsRow(inp, j);
    RowHitIs(inp, q, ContributorsOf(inp)[j], hit);
  }

  lemma CustomBeforeCustom(inp: Input, hit: string -> bool, k: nat, l: nat)
    requires CustomDecides(inp, hit, k) && l < |inp.customs| && FirstHit(inp.customs[l].rules, hit).Some?
    ensures var s, c := inp.customs[k], inp.customs[l];
            l == k || s.priority < c.priority
            || (s.priority == c.priority && (Less(s.name, c.name) || (s.name == c.name && k < l)))
  {
    hide RowHit, FirstHit;
  }

  /** Routing, by custom rule sets: the set's own first match sends the traffic, as it stands. */
  lemma BuildRoutesByCustom(inp: Input, hit: string -> bool, k: nat)
    requires TargetName(inp.fallback) && Matcher(hit) && CustomDecides(inp, hit, k)
    ensures var rule := FirstHit(inp.customs[k].rules, hit).value;
            Target(rule).Some? && ServedTo(inp, hit, Target(rule).value)
  {
    hide Build, RemovedBy, Sources, RowRules, FirstHit, NamespacedRule, RewriteRules, NamespacedAll, ContributorsOf,
         Target, Decides, Matcher, RowHit, RawPart, CustomDecides;
    var i := CustomIsDecider(inp, hit, k);
    BuildRoutesLayered(inp, hit, i);
  }

  /** Traffic that meets no active row's rules and no custom rule goes to the fallback. */
  lemma BuildRoutesNobody(inp: Input, hit: string -> bool)
    requires TargetName(inp.fallback) && Matcher(hit)
    requires forall r :: Active(inp, r) ==> RowHit(inp, r, hit).None?
    requires forall s :: s in inp.customs ==> FirstHit(s.rules, hit).None?
    ensures var served := FirstHit(Build(inp).rules.rules, hit);
            served.Some? && Target(served.value) == Some(inp.fallback)
  {
    hide Build, RemovedBy, Sources, RowRules, FirstHit, NamespacedRule, RewriteRules, NamespacedAll, ContributorsOf,
         Target, Matcher, RowHit, RawPart, UpstreamParts;
    var cs, n := ContributorsOf(inp), |UpstreamParts(NamespacedAll(Sources(inp)))|;
    ContributorsExactly(inp);
    forall i: nat ensures !Decides(cs, hit, i) {
      if i < n {
        var q := UpstreamIsRow(inp, i);
        RowHitIs(inp, q, cs[i], hit);
      }
    }
    BuildRoutesUnmatched(inp, hit);
  }

  // ----- priority and name of every served rule

  /** Served rule `k` is a rule of contributor `c`, possibly with the fallback for a removed target, and is
      listed under the contributor's priority and name. */
  ghost predicate ServedFor(inp: Input, k: nat, c: Contributor) {
    var out := Build(inp).rules;
    && k < |out.rules| && k < |out.priorities| && k < |out.contributors|
    && (exists rule :: rule in c.rules && out.rules[k] == PruneRule(rule, RemovedBy(inp), inp.fallback))
    && out.priorities[k] == c.priority && out.contributors[k] == c.name
  }

  lemma MergedFrom(cs: seq<Contributor>, fallback: string, k: nat) returns (c: Contributor, rule: string)
    requires k < |Merged(cs, fallback).rules| - 1
    ensures c in cs && rule in c.rules && Merged(cs, fallback).rules[k] == rule
    ensures Merged(cs, fallback).priorities[k] == c.priority && Merged(cs, fallback).contributors[k] == c.name
  {
    hide StableSort;
    var sorted := StableSort(cs, Earlier);
    EarlierIsStrictWeak();
    StableSortIsStable(cs, Earlier);
    EmitProvenance(sorted, k);
    var i, j :| 0 <= i < |sorted| && 0 <= j < |sorted[i].rules| && EmitAll(sorted).rules[k] == sorted[i].rules[j]
          && EmitAll(sorted).priorities[k] == sorted[i].priority && EmitAll(sorted).contributors[k] == sorted[i].name;
    c, rule := sorted[i], sorted[i].rules[j];
    assert sorted[i] in sorted;
  }

  lemma MergedLast(cs: seq<Contributor>, fallback: string)
    ensures var m, last := Merged(cs, fallback), |Merged(cs, fallback).rules| - 1;
            0 <= last < |m.priorities| == |m.contributors| && m.rules[last] == "MATCH," + fallback
            && m.priorities[last] == 0 && m.contributors[last] == ""
  {
    hide EmitAll, StableSort;
  }

  /** Every served rule but the last stands under the priority and the name of the active row or the custom
      rule set it comes from; the last sends what is left to the fallback, under priority 0 and no name. */
  lemma ServedRulesFrom(inp: Input, k: nat)
    requires k < |Build(inp).rules.rules|
    ensures k < |Build(inp).rules.rules| - 1 ==>
              exists c :: ServedFor(inp, k, c) && (FromSomeRow(inp, c) || c in inp.customs)
    ensures k == |Build(inp).rules.rules| - 1 ==>
              && k < |Build(inp).rules.priorities| && k < |Build(inp).rules.contributors|
              && Build(inp).rules.rules[k] == PruneRule("MATCH," + inp.fallback, RemovedBy(inp), inp.fallback)
              && Build(inp).rules.priorities[k] == 0 && Build(inp).rules.contributors[k] == ""
  {
    hide Build, RemovedBy, Sources, Merged, FromRow, NamespacedAll, UpstreamParts, ContributorsOf, PruneRule;
    var cs := ContributorsOf(inp);
    ServedRules(inp);
    MergedLast(cs, inp.fallback);
    if k < |Build(inp).rules.rules| - 1 {
      var c, rule := MergedFrom(cs, inp.fallback, k);
      ContributorsExactly(inp);
      var l :| 0 <= l < |cs| && cs[l] == c;
      assert ServedFor(inp, k, c);
    }
  }
}
