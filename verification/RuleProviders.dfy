/** Rule-providers: namespacing each source's definitions, dropping RULE-SET rules nobody backs,
    and emitting exactly the definitions the final rules name. */
module RuleProviders {
  import opened Text
  import opened Yaml
  import opened RuleLine
  import opened Subscriptions
  import opened Namespace
  import opened RuleMerge

  /** `sourceDistinctPath`: the base name replaced by the key, directory and extension kept. */
  function DistinctPath(orig: string, key: string): (r: string) { DirOf(orig) + key + ExtOf(orig) }

  function DirOf(orig: string): (d: string) { orig[..LastIndexOf(orig, '/') + 1] }

  function ExtOf(orig: string): (e: string) { Extension(orig[LastIndexOf(orig, '/') + 1..]) }

  function Extension(base: string): (r: string) {
    var dot := LastIndexOf(base, '.');
    if dot >= 0 then base[dot..] else ""
  }

  function ProviderKey(source: string, key: Node): (k: Node) {
    key.(value := Prefixed(source, key.value), tag := "!!str")
  }

  /** A provider definition with its cache path and fetch-through proxy namespaced. */
  function ProviderValue(source: string, key: string, v: Node): (r: Node) {
    var path := GetField(v, "path");
    var v1 := if path != "" then SetField(v, "path", DistinctPath(path, key)) else v;
    var px := GetField(v1, "proxy");
    if px != "" && px !in BUILTINS then SetField(v1, "proxy", Prefixed(source, px)) else v1
  }

  /** What one pair becomes: nothing if its definition is no mapping. */
  function ProviderPair(source: string, key: Node, v: Node): (r: seq<Node>)
    ensures |r| == if v.kind == Mapping then 2 else 0
  {
    var k := ProviderKey(source, key);
    if v.kind == Mapping then [k, ProviderValue(source, k.value, v)] else []
  }

  /** The namespaced pairs among the first `n` pairs; definitions that are no mapping are skipped. */
  function ProviderPairs(source: string, c: seq<Node>, n: nat): (r: seq<Node>)
    requires 2 * n <= |c|
  {
    if n == 0 then [] else
      var key, v := c[2 * n - 2], c[2 * n - 1];
      ProviderPairs(source, c, n - 1) + ProviderPair(source, key, v)
  }

  function SkippedProviders(c: seq<Node>, n: nat): (r: seq<string>)
    requires 2 * n <= |c|
  {
    if n == 0 then [] else
      SkippedProviders(c, n - 1) + (if c[2 * n - 1].kind == Mapping then [] else [c[2 * n - 2].value])
  }

  /** `RewriteSourceRuleProviders` as a value. */
  function NamespacedProviders(source: string, rp: Node): (r: Node) {
    Node(Mapping, "!!map", "", "", ProviderPairs(source, rp.content, |rp.content| / 2))
  }

  /** `ruleProviderKeys` */
  function PairKeys(c: seq<Node>, n: nat): (r: set<string>)
    requires 2 * n <= |c|
  {
    if n == 0 then {} else PairKeys(c, n - 1) + {c[2 * n - 2].value}
  }

  function ProviderKeys(rp: Option<Node>): (r: set<string>) {
    if rp.None? || rp.value.kind != Mapping then {} else PairKeys(rp.value.content, |rp.value.content| / 2)
  }

  predicate Backed(rule: string, keys: set<string>) {
    Provider(rule).Some? ==> Provider(rule).value in keys
  }

  function BackedRules(rules: seq<string>, keys: set<string>): (r: seq<string>)
  {
    if rules == [] then [] else
      var rule := rules[|rules| - 1];
      BackedRules(rules[..|rules| - 1], keys) + (if Backed(rule, keys) then [rule] else [])
  }

  function Referenced(rules: seq<string>): (r: set<string>) {
    if rules == [] then {} else
      var p := Provider(rules[|rules| - 1]);
      Referenced(rules[..|rules| - 1]) + (if p.Some? then {p.value} else {})
  }

  /** The pairs among the first `n` whose key is wanted. */
  function WantedPairs(c: seq<Node>, n: nat, wanted: set<string>): (r: seq<Node>)
    requires 2 * n <= |c|
    ensures |r| % 2 == 0
  {
    if n == 0 then [] else
      WantedPairs(c, n - 1, wanted) + (if c[2 * n - 2].value in wanted then [c[2 * n - 2], c[2 * n - 1]] else [])
  }

  function WantedOf(ps: seq<Node>, wanted: set<string>): (r: seq<Node>)
    ensures |r| % 2 == 0
  {
    if ps == [] then [] else
      var p := ps[|ps| - 1];
      WantedOf(ps[..|ps| - 1], wanted) +
      if p.kind == Mapping then WantedPairs(p.content, |p.content| / 2, wanted) else []
  }

  /** `MergeRuleProviders` as a value. */
  function MergedProviders(ps: seq<Node>, wanted: set<string>): (r: Option<Node>) {
    var c := WantedOf(ps, wanted);
    if c == [] then None else Some(Node(Mapping, "!!map", "", "", c))
  }

  // ----- the string passes

  /** The rules reported as dropped are exactly those that are not backed, in order. */
  ghost predicate DroppedFrom(rules: seq<string>, keys: set<string>, dropped: seq<string>) {
    exists at: seq<nat> ::
      && Selects(rules, at, dropped)
      && forall k: nat :: k in at <==> k < |rules| && !Backed(rules[k], keys)
  }

  /** `DropUnbackedRuleSetRules` */
  method DropUnbacked(rules: seq<string>, keys: set<string>) returns (kept: seq<string>, dropped: seq<string>)
    ensures kept == BackedRules(rules, keys)
    ensures DroppedFrom(rules, keys, dropped)
  {
    hide Split, Selects;
    kept, dropped := [], [];
    ghost var at: seq<nat> := [];
    NothingSelected<string>([]);
    for i := 0 to |rules|
      invariant kept == BackedRules(rules[..i], keys)
      invariant Selects(rules[..i], at, dropped)
      invariant forall k: nat :: k in at <==> k < i && !Backed(rules[k], keys)
    {
      assert rules[..i + 1] == rules[..i] + [rules[i]];
      assert rules[..i + 1][..i] == rules[..i];
      SelectsMore(rules[..i], at, dropped, rules[i]);
      var parts := Split(rules[i], ',');
      if |parts| >= 2 && parts[0] == "RULE-SET" && parts[1] !in keys {
        dropped, at := dropped + [rules[i]], at + [i];
      } else {
        kept := kept + [rules[i]];
      }
    }
    assert rules[..|rules|] == rules;
  }

  /** `ReferencedRuleProviders` */
  method CollectReferenced(rules: seq<string>) returns (names: set<string>)
    ensures names == Referenced(rules)
  {
    names := {};
    for i := 0 to |rules|
      invariant names == Referenced(rules[..i])
    {
      assert rules[..i + 1][..i] == rules[..i];
      var parts := Split(rules[i], ',');
      if |parts| >= 2 && parts[0] == "RULE-SET" { names := names + {parts[1]}; }
    }
    assert rules[..|rules|] == rules;
  }

  // ----- laws

  lemma {:induction false} BackedRulesLaw(rules: seq<string>, keys: set<string>)
    ensures forall r :: r in BackedRules(rules, keys) <==> r in rules && Backed(r, keys)
  {
    if rules != [] {
      BackedRulesLaw(rules[..|rules| - 1], keys);
      assert rules == rules[..|rules| - 1] + [rules[|rules| - 1]];
    }
  }

  lemma {:induction false} ReferencedLaw(rules: seq<string>, p: string)
    ensures p in Referenced(rules) <==> exists i :: 0 <= i < |rules| && Provider(rules[i]) == Some(p)
  {
    if rules != [] {
      var init := rules[..|rules| - 1];
      ReferencedLaw(init, p);
      if p in Referenced(init) {
        var i :| 0 <= i < |init| && Provider(init[i]) == Some(p);
        assert Provider(rules[i]) == Some(p);
      } else if p in Referenced(rules) {
        assert Provider(rules[|rules| - 1]) == Some(p);
      }
      if i :| 0 <= i < |rules| && Provider(rules[i]) == Some(p) {
        assert i == |rules| - 1 || init[i] == rules[i];
      }
    }
  }

  /** `key` is the key of some pair. */
  ghost predicate HasKey(c: seq<Node>, key: string) {
    exists i: nat :: 2 * i + 1 < |c| && c[2 * i].value == key
  }

  lemma HasKeyConcat(a: seq<Node>, b: seq<Node>, key: string)
    requires |a| % 2 == 0
    ensures HasKey(a + b, key) <==> HasKey(a, key) || HasKey(b, key)
  {
    var r, n := a + b, |a| / 2;
    if i: nat :| 2 * i + 1 < |a| && a[2 * i].value == key {
      assert r[2 * i].value == key;
    }
    if i: nat :| 2 * i + 1 < |b| && b[2 * i].value == key {
      assert r[2 * (n + i)] == b[2 * i];
      assert HasKey(r, key);
    }
    if i: nat :| 2 * i + 1 < |r| && r[2 * i].value == key {
      if i < n { assert a[2 * i].value == key; } else { assert b[2 * (i - n)].value == key; }
    }
  }

  lemma PairHasKey(k: Node, v: Node, key: string)
    ensures HasKey([k, v], key) <==> k.value == key
  {
    var c := [k, v];
    if k.value == key { assert c[2 * 0].value == key; }
  }

  lemma {:induction false} WantedPairsLaw(c: seq<Node>, n: nat, wanted: set<string>, key: string)
    requires 2 * n <= |c|
    ensures HasKey(WantedPairs(c, n, wanted), key) <==> key in wanted && key in PairKeys(c, n)
  {
    if n > 0 {
      WantedPairsLaw(c, n - 1, wanted, key);
      var k, v := c[2 * n - 2], c[2 * n - 1];
      if k.value in wanted {
        HasKeyConcat(WantedPairs(c, n - 1, wanted), [k, v], key);
        PairHasKey(k, v, key);
      } else {
        assert WantedPairs(c, n, wanted) == WantedPairs(c, n - 1, wanted);
      }
    }
  }

  /** A provider is emitted exactly when some source defines it and it is wanted. */
  lemma {:induction false} WantedOfLaw(ps: seq<Node>, wanted: set<string>, key: string)
    ensures HasKey(WantedOf(ps, wanted), key) <==>
            key in wanted && exists i :: 0 <= i < |ps| && key in ProviderKeys(Some(ps[i]))
  {
    if ps != [] {
      var init, p := ps[..|ps| - 1], ps[|ps| - 1];
      WantedOfLaw(init, wanted, key);
      assert forall i :: 0 <= i < |init| ==> init[i] == ps[i];
      if p.kind == Mapping {
        var pairs := WantedPairs(p.content, |p.content| / 2, wanted);
        WantedPairsLaw(p.content, |p.content| / 2, wanted, key);
        HasKeyConcat(WantedOf(init, wanted), pairs, key);
      } else {
        assert WantedOf(ps, wanted) == WantedOf(init, wanted);
      }
    }
  }

  /** The emitted keys. */
  ghost predicate Emitted(r: Option<Node>, key: string) { r.Some? && HasKey(r.value.content, key) }

  lemma EmittedLaw(ps: seq<Node>, wanted: set<string>, key: string)
    ensures Emitted(MergedProviders(ps, wanted), key) <==>
            key in wanted && exists i :: 0 <= i < |ps| && key in ProviderKeys(Some(ps[i]))
  {
    WantedOfLaw(ps, wanted, key);
  }

  /** What is emitted is one plain mapping of pairs, or nothing if no pair is wanted. */
  lemma EmittedBlock(ps: seq<Node>, wanted: set<string>)
    ensures var r := MergedProviders(ps, wanted);
            && (r.Some? ==> r.value.kind == Mapping && r.value.tag == "!!map" && r.value.head == r.value.value == ""
                            && r.value.content != [] && Paired(r.value))
            && (r.None? <==> forall i, key :: 0 <= i < |ps| && key in wanted ==> key !in ProviderKeys(Some(ps[i])))
  {
    hide ProviderKeys;
    var c := WantedOf(ps, wanted);
    if c != [] {
      assert HasKey(c, c[0].value) by { assert c[2 * 0].value == c[0].value; }
      WantedOfLaw(ps, wanted, c[0].value);
    }
    if i, key :| 0 <= i < |ps| && key in wanted && key in ProviderKeys(Some(ps[i])) {
      WantedOfLaw(ps, wanted, key);
    }
  }

  /** A RULE-SET line whose target lies after its provider. */
  predicate RuleSetWithTarget(rule: string) {
    Provider(rule).Some? && TargetIndex(Fields(rule)).value >= 2
  }

  /** Retargeting such a rule leaves its provider alone. */
  lemma PruneKeepsProvider(rule: string, removed: set<string>, fallback: string)
    requires TargetName(fallback)
    ensures RuleSetWithTarget(PruneRule(rule, removed, fallback)) <==> RuleSetWithTarget(rule)
    ensures RuleSetWithTarget(rule) ==> Provider(PruneRule(rule, removed, fallback)) == Provider(rule)
  {
    if Target(rule).Some? && Target(rule).value in removed {
      RetargetLaw(rule, fallback);
      var f := Fields(rule);
    }
  }

  // ----- cache paths

  lemma LastSlashOf(dir: string, base: string)
    requires (dir == "" || dir[|dir| - 1] == '/') && '/' !in base
    ensures LastIndexOf(dir + base, '/') == |dir| - 1
  {
    var s := dir + base;
    var i := LastIndexOf(s, '/');
    assert forall k :: |dir| <= k < |s| ==> s[k] == base[k - |dir|];
    assert dir != "" ==> s[|dir| - 1] == '/';
  }

  /** What a kept extension looks like: empty, or a dot and no further dot or slash. */
  predicate Ext(e: string) { e == "" || (e[0] == '.' && '.' !in e[1..] && '/' !in e) }

  /** What a kept directory looks like. */
  predicate Dir(d: string) { d == "" || d[|d| - 1] == '/' }

  lemma PathShape(orig: string)
    ensures Dir(DirOf(orig)) && Ext(ExtOf(orig))
  {
    hide LastIndexOf, Extension, Ext;
    var slash := LastIndexOf(orig, '/');
    var base := orig[slash + 1..];
    forall k | 0 <= k < |base| ensures base[k] != '/' { assert base[k] == orig[slash + 1 + k]; }
    ExtensionShape(base);
  }

  lemma ExtensionShape(base: string)
    requires forall k :: 0 <= k < |base| ==> base[k] != '/'
    ensures Ext(Extension(base))
  {
    hide LastIndexOf;
    var dot := LastIndexOf(base, '.');
    if dot >= 0 {
      var e := base[dot..];
      forall k | 0 <= k < |e| ensures e[k] != '/' && (k > 0 ==> e[k] != '.') { assert e[k] == base[dot + k]; }
    }
  }

  /** Every directory, and every extension, is kept by some original path. */
  lemma PathWith(dir: string, key: string, ext: string) returns (orig: string)
    requires Dir(dir) && Ext(ext)
    ensures orig != "" && DistinctPath(orig, key) == dir + key + ext
  {
    var base := if ext == "" then "p" else ext;
    orig := dir + base;
    assert '/' !in base && Extension(base) == ext;
    LastSlashOf(dir, base);
    assert orig[..|dir|] == dir && orig[|dir|..] == base;
  }

  /** In a path written as directory, base name and extension, the base name is replaced. */
  lemma PathWritten(dir: string, base: string, ext: string, key: string)
    requires (dir == "" || dir[|dir| - 1] == '/') && '/' !in base
    requires if ext == "" then '.' !in base else ext[0] == '.' && '.' !in ext[1..] && '/' !in ext
    ensures DistinctPath(dir + base + ext, key) == dir + key + ext
  {
    hide LastIndexOf;
    var orig, name := dir + base + ext, base + ext;
    assert orig == dir + name;
    assert forall k :: 0 <= k < |name| ==> name[k] == if k < |base| then base[k] else ext[k - |base|];
    LastSlashOf(dir, name);
    assert orig[..|dir|] == dir && orig[|dir|..] == name;
    LastDot(base, ext);
  }

  lemma LastDot(base: string, ext: string)
    requires if ext == "" then '.' !in base else ext[0] == '.' && '.' !in ext[1..]
    ensures Extension(base + ext) == ext
  {
    var name := base + ext;
    var dot := LastIndexOf(name, '.');
    assert forall k :: |base| <= k < |name| ==> name[k] == ext[k - |base|];
    assert forall k :: 0 <= k < |base| ==> name[k] == base[k];
    if ext != "" {
      assert name[|base|] == '.' && forall k :: |base| < k < |name| ==> name[k] == ext[1..][k - |base| - 1];
      assert dot == |base| && name[|base|..] == ext;
    }
  }

  lemma PrefixedHead(s: string, k: string, text: string)
    requires LowerName(s) && Prefixed(s, k) <= text
    ensures s == text[..IndexOf(text, '_')]
  {
    assert text[|s|] == Prefixed(s, k)[|s|] == '_';
    assert forall i :: 0 <= i < |s| ==> text[i] == s[i];
    IndexOfIs(text, '_', |s|);
  }

  /** The two texts are equal, or one is the other with an extension. */
  predicate SameStem(t: string, n: string) {
    || (t <= n && Ext(n[|t|..]))
    || (n <= t && Ext(t[|n|..]))
  }

  /** Behind some slash of `key` stands `name`, up to an extension. */
  ghost predicate Clash(key: string, name: string) {
    exists j :: 0 <= j < |key| && key[j] == '/' && SameStem(key[j + 1..], name)
  }

  lemma StemFrom(t: string, e: string, n: string, f: string)
    requires |t| <= |n| && Ext(e) && t + e == n + f
    ensures SameStem(t, n) && SameStem(n, t)
  {
    var p := t + e;
    assert t == p[..|t|] == n[..|t|];
    var x := n[|t|..];
    assert forall k :: 0 <= k < |x| ==> x[k] == n[|t| + k] == p[|t| + k] == e[k];
  }

  /** With the shorter directory on the first side, its name has a slash and the second name behind it. */
  lemma SharedPath(d: string, m: string, e: string, d': string, n: string, f: string)
    requires Dir(d') && Ext(e) && Ext(f) && |d| < |d'| && d + m + e == d' + n + f
    ensures Clash(m, n)
  {
    var p, at := d + m + e, |d'| - |d|;
    assert p[|d'| - 1] == d'[|d'| - 1] == '/';
    assert forall i :: 0 <= i < |m| ==> p[|d| + i] == m[i];
    assert forall i :: 0 <= i < |e| ==> p[|d| + |m| + i] == e[i];
    assert at - 1 < |m| && m[at - 1] == '/';
    var t := m[at..];
    assert p[|d'|..] == t + e && p[|d'|..] == n + f;
    if |t| <= |n| { StemFrom(t, e, n, f); } else { StemFrom(n, f, t, e); }
  }

  /** Two names on one path: the directories are equal, or one name clashes with the other. */
  lemma SharedMeans(m: string, o1: string, n: string, o2: string)
    requires DistinctPath(o1, m) == DistinctPath(o2, n)
    ensures Clash(m, n) || Clash(n, m) || (DirOf(o1) == DirOf(o2) && m + ExtOf(o1) == n + ExtOf(o2))
  {
    hide Ext, ExtOf, DirOf, Clash;
    PathShape(o1);
    PathShape(o2);
    var d1, d2, e1, e2 := DirOf(o1), DirOf(o2), ExtOf(o1), ExtOf(o2);
    if |d1| < |d2| {
      SharedPath(d1, m, e1, d2, n, e2);
    } else if |d2| < |d1| {
      SharedPath(d2, n, e2, d1, m, e1);
    } else {
      var p := d1 + m + e1;
      assert p == d1 + (m + e1) && p == d2 + (n + e2);
      assert p[..|d1|] == d1 && p[..|d2|] == d2;
      assert p[|d1|..] == m + e1 && p[|d2|..] == n + e2;
    }
  }

  /** Extensions that make two texts with the same stem equal. */
  lemma StemExtensions(t: string, n: string) returns (e: string, f: string)
    requires SameStem(t, n)
    ensures Ext(e) && Ext(f) && t + e == n + f
  {
    e, f := "", "";
    if t <= n && Ext(n[|t|..]) { e := n[|t|..]; } else { f := t[|n|..]; }
  }

  /** Some original paths give definitions under these namespaced keys the same cache path. */
  ghost predicate CanShare(n1: string, n2: string) {
    exists o1, o2 :: o1 != "" && o2 != "" && DistinctPath(o1, n1) == DistinctPath(o2, n2)
  }

  lemma StemsShare(m: string, t: string, n: string)
    requires Dir(m) && SameStem(t, n)
    ensures CanShare(m + t, n) && CanShare(n, m + t)
  {
    hide DistinctPath, SameStem, Ext;
    var e, f := StemExtensions(t, n);
    assert Ext("") && Dir("") by { NoExtension(); }
    var o1 := PathWith("", m + t, e);
    var o2 := PathWith(m, n, f);
    assert "" + (m + t) + e == m + (t + e) && m + n + f == m + (n + f);
    assert DistinctPath(o1, m + t) == DistinctPath(o2, n);
  }

  lemma NoExtension()
    ensures Ext("")
  {
  }

  /** Clashing names can share a path. */
  lemma ClashCanShare(m: string, n: string)
    requires Clash(m, n)
    ensures CanShare(m, n) && CanShare(n, m)
  {
    hide CanShare, SameStem;
    var j :| 0 <= j < |m| && m[j] == '/' && SameStem(m[j + 1..], n);
    assert m == m[..j + 1] + m[j + 1..];
    StemsShare(m[..j + 1], m[j + 1..], n);
  }

  /** Exactly, for any two namespaced keys: some original paths put them on one cache path if and only
      if they are equal up to an extension, or one stands behind a slash of the other, up to an
      extension. */
  lemma NamesShareExactly(m: string, n: string)
    ensures CanShare(m, n) <==> SameStem(m, n) || Clash(m, n) || Clash(n, m)
  {
    hide DistinctPath, Clash, SameStem, ExtOf, DirOf, Ext;
    if CanShare(m, n) {
      var o1, o2 :| o1 != "" && o2 != "" && DistinctPath(o1, m) == DistinctPath(o2, n);
      SharedMeans(m, o1, n, o2);
      PathShape(o1);
      PathShape(o2);
      if m + ExtOf(o1) == n + ExtOf(o2) {
        if |m| <= |n| { StemFrom(m, ExtOf(o1), n, ExtOf(o2)); } else { StemFrom(n, ExtOf(o2), m, ExtOf(o1)); }
      }
    }
    if SameStem(m, n) {
      StemsShare("", m, n);
      assert "" + m == m;
    }
    if Clash(m, n) { ClashCanShare(m, n); }
    if Clash(n, m) { ClashCanShare(n, m); }
  }

  lemma KeyTail(s: string, k: string, j: nat)
    requires j < |k|
    ensures Prefixed(s, k)[|s| + 1 + j] == k[j] && Prefixed(s, k)[|s| + 1 + j + 1..] == k[j + 1..]
  {
  }

  /** The prefix has no slash. */
  lemma ClashOfKey(s: string, k: string, n: string)
    requires LowerName(s)
    ensures Clash(Prefixed(s, k), n) <==> Clash(k, n)
  {
    hide SameStem;
    var own, at := Prefixed(s, k), |s| + 1;
    if Clash(own, n) {
      var j :| 0 <= j < |own| && own[j] == '/' && SameStem(own[j + 1..], n);
      assert j >= at;
      KeyTail(s, k, j - at);
    }
    if Clash(k, n) {
      var j :| 0 <= j < |k| && k[j] == '/' && SameStem(k[j + 1..], n);
      KeyTail(s, k, j);
      assert own[at + j] == '/' && SameStem(own[at + j + 1..], n);
    }
  }

  /** Names of different sources have different heads. */
  lemma StemsDiffer(s1: string, k1: string, s2: string, k2: string)
    requires LowerName(s1) && LowerName(s2) && s1 != s2
    ensures !SameStem(Prefixed(s1, k1), Prefixed(s2, k2))
  {
    var n1, n2 := Prefixed(s1, k1), Prefixed(s2, k2);
    if SameStem(n1, n2) {
      var long := if n1 <= n2 then n2 else n1;
      PrefixedHead(s1, k1, long);
      PrefixedHead(s2, k2, long);
    }
  }

  lemma StemsOfKeys(s: string, k1: string, k2: string)
    ensures SameStem(Prefixed(s, k1), Prefixed(s, k2)) <==> SameStem(k1, k2)
  {
    hide Ext;
    var h := s + "_";
    assert Prefixed(s, k1) == h + k1 && Prefixed(s, k2) == h + k2;
    HeadStems(h, k1, k2);
    HeadStems(h, k2, k1);
  }

  lemma HeadStems(h: string, a: string, b: string)
    ensures h + a <= h + b <==> a <= b
    ensures a <= b ==> (h + b)[|h + a|..] == b[|a|..]
  {
    assert (h + b)[|h|..] == b && (h + a)[|h|..] == a;
    if h + a <= h + b { assert (h + b)[..|h + a|][|h|..] == a; }
  }

  /** Exactly, for different sources: one key has a slash with the other namespaced key behind it, up
      to an extension. */
  lemma PathsSharedExactly(s1: string, k1: string, s2: string, k2: string)
    requires LowerName(s1) && LowerName(s2) && s1 != s2
    ensures CanShare(Prefixed(s1, k1), Prefixed(s2, k2)) <==> Clash(k1, Prefixed(s2, k2)) || Clash(k2, Prefixed(s1, k1))
  {
    hide CanShare, Clash, Prefixed, SameStem;
    NamesShareExactly(Prefixed(s1, k1), Prefixed(s2, k2));
    StemsDiffer(s1, k1, s2, k2);
    ClashOfKey(s1, k1, Prefixed(s2, k2));
    ClashOfKey(s2, k2, Prefixed(s1, k1));
  }

  /** Exactly, inside one source: the keys may also be equal up to an extension. */
  lemma OwnPathsSharedExactly(s: string, k1: string, k2: string)
    requires LowerName(s)
    ensures CanShare(Prefixed(s, k1), Prefixed(s, k2)) <==>
            SameStem(k1, k2) || Clash(k1, Prefixed(s, k2)) || Clash(k2, Prefixed(s, k1))
  {
    hide CanShare, Clash, Prefixed, SameStem;
    NamesShareExactly(Prefixed(s, k1), Prefixed(s, k2));
    StemsOfKeys(s, k1, k2);
    ClashOfKey(s, k1, Prefixed(s, k2));
    ClashOfKey(s, k2, Prefixed(s, k1));
  }

  /** Exactly, for given paths and keys without a slash: two definitions get one cache path if and only
      if they are of one source, in one directory, and the keys with the kept extensions are equal. */
  lemma PathsEqualExactly(s1: string, k1: string, o1: string, s2: string, k2: string, o2: string)
    requires LowerName(s1) && LowerName(s2) && '/' !in k1 && '/' !in k2
    ensures DistinctPath(o1, Prefixed(s1, k1)) == DistinctPath(o2, Prefixed(s2, k2)) <==>
            s1 == s2 && DirOf(o1) == DirOf(o2) && k1 + ExtOf(o1) == k2 + ExtOf(o2)
  {
    hide DirOf, ExtOf, Prefixed;
    var n1, n2, e1, e2 := Prefixed(s1, k1), Prefixed(s2, k2), ExtOf(o1), ExtOf(o2);
    if DistinctPath(o1, n1) == DistinctPath(o2, n2) {
      SharedMeans(n1, o1, n2, o2);
      ClashOfKey(s1, k1, n2);
      ClashOfKey(s2, k2, n1);
      EqualKeys(s1, k1, e1, s2, k2, e2);
    }
    if s1 == s2 && k1 + e1 == k2 + e2 {
      EqualNames(s1, k1, e1, k2, e2);
      assert DirOf(o1) + n1 + e1 == DirOf(o1) + (n1 + e1) && DirOf(o2) + n2 + e2 == DirOf(o2) + (n2 + e2);
    }
  }

  lemma EqualNames(s: string, k1: string, e1: string, k2: string, e2: string)
    requires k1 + e1 == k2 + e2
    ensures Prefixed(s, k1) + e1 == Prefixed(s, k2) + e2
  {
    assert Prefixed(s, k1) + e1 == s + "_" + (k1 + e1) && Prefixed(s, k2) + e2 == s + "_" + (k2 + e2);
  }

  lemma EqualKeys(s1: string, k1: string, e1: string, s2: string, k2: string, e2: string)
    requires LowerName(s1) && LowerName(s2) && Prefixed(s1, k1) + e1 == Prefixed(s2, k2) + e2
    ensures s1 == s2 && k1 + e1 == k2 + e2
  {
    var p := Prefixed(s1, k1) + e1;
    PrefixedHead(s1, k1, p);
    PrefixedHead(s2, k2, p);
    assert p[|s1| + 1..] == k1 + e1 && p[|s2| + 1..] == k2 + e2;
  }

  /** Providers of different sources never share a cache path when keys contain no slash. */
  lemma PathsNeverShared(s1: string, k1: string, o1: string, s2: string, k2: string, o2: string)
    requires LowerName(s1) && LowerName(s2) && s1 != s2 && '/' !in k1 && '/' !in k2
    ensures DistinctPath(o1, Prefixed(s1, k1)) != DistinctPath(o2, Prefixed(s2, k2))
  {
    PathsEqualExactly(s1, k1, o1, s2, k2, o2);
  }

  /** Inside one source they can without a slash too: keys `geo` and `geo.yaml`. */
  lemma OwnPathsCanBeShared(s: string)
    requires LowerName(s)
    ensures CanShare(Prefixed(s, "geo"), Prefixed(s, "geo.yaml"))
  {
    hide CanShare;
    assert "geo.yaml"[|"geo"|..] == ".yaml" && SameStem("geo", "geo.yaml");
    OwnPathsSharedExactly(s, "geo", "geo.yaml");
  }

  /** With a slash they can: keys `x/b_y` of source `a` and `y` of source `b`. */
  lemma PathsCanBeShared()
    ensures LowerName("a") && LowerName("b") && CanShare(Prefixed("a", "x/b_y"), Prefixed("b", "y"))
  {
    hide CanShare;
    var k, n := "x/b_y", Prefixed("b", "y");
    assert k[1] == '/' && k[2..] == n && n[|n|..] == "";
    ClashOfKey("a", k, n);
    ClashCanShare(Prefixed("a", k), n);
  }

  /** A settable path field ends up holding the distinct path. */
  lemma ProviderPath(source: string, key: string, v: Node)
    requires GetField(v, "path") != "" && Settable(v, "path")
    ensures GetField(ProviderValue(source, key, v), "path") == DistinctPath(GetField(v, "path"), key)
  {
    var v1 := SetField(v, "path", DistinctPath(GetField(v, "path"), key));
    SetFieldSame(v, "path", DistinctPath(GetField(v, "path"), key));
    SetFieldOther(v1, "proxy", Prefixed(source, GetField(v1, "proxy")), "path");
  }

  // ----- where an emitted definition comes from

  /** Pair `p` of `r` is pair `m` of `c`. */
  ghost predicate SamePair(r: seq<Node>, p: nat, c: seq<Node>, m: nat) {
    2 * p + 1 < |r| && 2 * m + 1 < |c| && r[2 * p] == c[2 * m] && r[2 * p + 1] == c[2 * m + 1]
  }

  lemma {:induction false} WantedPairsFrom(c: seq<Node>, n: nat, wanted: set<string>, p: nat)
    requires 2 * n <= |c| && 2 * p + 1 < |WantedPairs(c, n, wanted)|
    ensures exists m: nat :: SamePair(WantedPairs(c, n, wanted), p, c, m)
  {
    if n > 0 {
      var init, r := WantedPairs(c, n - 1, wanted), WantedPairs(c, n, wanted);
      if 2 * p + 1 < |init| {
        WantedPairsFrom(c, n - 1, wanted, p);
        var m: nat :| SamePair(init, p, c, m);
        assert SamePair(r, p, c, m);
      } else {
        assert 2 * p == |init|;
        assert SamePair(r, p, c, n - 1);
      }
    }
  }

  lemma {:induction false} WantedOfFrom(ps: seq<Node>, wanted: set<string>, p: nat)
    requires 2 * p + 1 < |WantedOf(ps, wanted)|
    ensures exists i: nat, m: nat :: i < |ps| && SamePair(WantedOf(ps, wanted), p, ps[i].content, m)
  {
    hide WantedPairs;
    var init, last := ps[..|ps| - 1], ps[|ps| - 1];
    var r0, r := WantedOf(init, wanted), WantedOf(ps, wanted);
    if 2 * p + 1 < |r0| {
      WantedOfFrom(init, wanted, p);
      var i: nat, m: nat :| i < |init| && SamePair(r0, p, init[i].content, m);
      assert SamePair(r, p, ps[i].content, m);
    } else {
      var tail := WantedPairs(last.content, |last.content| / 2, wanted);
      var q := p - |r0| / 2;
      WantedPairsFrom(last.content, |last.content| / 2, wanted, q);
      var m: nat :| SamePair(tail, q, last.content, m);
      assert r[2 * p] == tail[2 * q] && r[2 * p + 1] == tail[2 * q + 1];
      assert SamePair(r, p, ps[|ps| - 1].content, m);
    }
  }

  /** `k` and `v` are pair `m` of a source's block, namespaced. */
  ghost predicate PairOf(source: string, c: seq<Node>, m: nat, k: Node, v: Node) {
    && 2 * m + 1 < |c| && c[2 * m + 1].kind == Mapping
    && k == ProviderKey(source, c[2 * m]) && v == ProviderValue(source, k.value, c[2 * m + 1])
  }

  ghost predicate SomePairOf(source: string, c: seq<Node>, k: Node, v: Node) {
    exists m: nat :: PairOf(source, c, m, k, v)
  }

  lemma {:induction false} ProviderPairsEven(source: string, c: seq<Node>, n: nat)
    requires 2 * n <= |c|
    ensures |ProviderPairs(source, c, n)| % 2 == 0
  {
    hide ProviderPair;
    if n > 0 { ProviderPairsEven(source, c, n - 1); }
  }

  lemma {:induction false} ProviderPairsFrom(source: string, c: seq<Node>, n: nat, p: nat)
    requires 2 * n <= |c| && 2 * p + 1 < |ProviderPairs(source, c, n)|
    ensures var r := ProviderPairs(source, c, n); SomePairOf(source, c, r[2 * p], r[2 * p + 1])
  {
    hide ProviderKey, ProviderValue;
    if n > 0 {
      var init, r := ProviderPairs(source, c, n - 1), ProviderPairs(source, c, n);
      if 2 * p + 1 < |init| {
        ProviderPairsFrom(source, c, n - 1, p);
        var m: nat :| PairOf(source, c, m, init[2 * p], init[2 * p + 1]);
        assert PairOf(source, c, m, r[2 * p], r[2 * p + 1]);
      } else {
        ProviderPairsEven(source, c, n - 1);
        assert 2 * p == |init|;
        assert PairOf(source, c, n - 1, r[2 * p], r[2 * p + 1]);
      }
    }
  }

  /** The keys of the first `n` pairs. */
  function KeysOf(c: seq<Node>, n: nat): (r: seq<string>)
    requires 2 * n <= |c|
    ensures |r| == n
  {
    seq(n, m requires 0 <= m < n => c[2 * m].value)
  }

  /** The definitions reported as skipped are exactly those that are no mapping, by key and in order. */
  lemma {:induction false} SkippedExactly(c: seq<Node>, n: nat) returns (at: seq<nat>)
    requires 2 * n <= |c|
    ensures Selects(KeysOf(c, n), at, SkippedProviders(c, n))
    ensures forall m: nat :: m in at <==> m < n && c[2 * m + 1].kind != Mapping
  {
    hide Selects;
    if n == 0 {
      at := [];
      NothingSelected(KeysOf(c, 0));
    } else {
      at := SkippedExactly(c, n - 1);
      assert KeysOf(c, n) == KeysOf(c, n - 1) + [c[2 * n - 2].value];
      SelectsMore(KeysOf(c, n - 1), at, SkippedProviders(c, n - 1), c[2 * n - 2].value);
      assert c[2 * (n - 1) + 1] == c[2 * n - 1];
      if c[2 * n - 1].kind != Mapping {
        at := at + [n - 1];
      } else {
        assert SkippedProviders(c, n) == SkippedProviders(c, n - 1);
      }
    }
  }

  /** The path field of a namespaced definition: the distinct path, or still none. */
  lemma PathOf(source: string, key: string, v: Node)
    requires Settable(v, "path")
    ensures GetField(ProviderValue(source, key, v), "path")
         == if GetField(v, "path") == "" then "" else DistinctPath(GetField(v, "path"), key)
  {
    hide DistinctPath, SetField, GetField;
    if GetField(v, "path") != "" {
      ProviderPath(source, key, v);
    } else {
      SetFieldOther(v, "proxy", Prefixed(source, GetField(v, "proxy")), "path");
    }
  }

  /** The fetch-through proxy of a namespaced definition: a built-in stays, a name is prefixed. */
  lemma FetchProxyOf(source: string, key: string, v: Node)
    requires Settable(v, "proxy") && GetField(v, "proxy") != ""
    ensures GetField(ProviderValue(source, key, v), "proxy") == PrefixedRef(source, GetField(v, "proxy"))
  {
    hide DistinctPath, SetField, GetField;
    var v1 := if GetField(v, "path") != "" then SetField(v, "path", DistinctPath(GetField(v, "path"), key)) else v;
    SetFieldOther(v, "path", DistinctPath(GetField(v, "path"), key), "proxy");
    assert GetField(v1, "proxy") == GetField(v, "proxy") && GetNode(v1, "proxy") == GetNode(v, "proxy");
    if GetField(v, "proxy") !in BUILTINS { SetFieldSame(v1, "proxy", Prefixed(source, GetField(v, "proxy"))); }
  }

  /** A namespaced definition in full: its key and its fetch-through proxy are prefixed, its path is its own,
      and every other field is as the source wrote it. */
  lemma PairExactly(source: string, c: seq<Node>, m: nat, k: Node, v: Node)
    requires PairOf(source, c, m, k, v) && Settable(c[2 * m + 1], "path") && Settable(c[2 * m + 1], "proxy")
    ensures k == c[2 * m].(value := source + "_" + c[2 * m].value, tag := "!!str") && v.kind == Mapping
    ensures var raw := c[2 * m + 1];
            && GetField(v, "path") == (if GetField(raw, "path") == "" then ""
                                       else DistinctPath(GetField(raw, "path"), source + "_" + c[2 * m].value))
            && GetField(v, "proxy") == (if GetField(raw, "proxy") == "" || BuiltIn(GetField(raw, "proxy"))
                                        then GetField(raw, "proxy") else source + "_" + GetField(raw, "proxy"))
            && forall key :: key != "path" && key != "proxy" ==> GetNode(v, key) == GetNode(raw, key)
  {
    hide DistinctPath, SetField, GetField, GetNode;
    var raw := c[2 * m + 1];
    PathOf(source, k.value, raw);
    RefIs(source, GetField(raw, "proxy"));
    if GetField(raw, "proxy") != "" { FetchProxyOf(source, k.value, raw); } else { NoFetchProxy(source, k.value, raw); }
    forall key | key != "path" && key != "proxy" { OtherFieldsKept(source, k.value, raw, key); }
    KindKept(source, k.value, raw);
  }

  lemma NoFetchProxy(source: string, key: string, v: Node)
    requires GetField(v, "proxy") == ""
    ensures GetField(ProviderValue(source, key, v), "proxy") == ""
  {
    hide DistinctPath, SetField, GetField;
    SetFieldOther(v, "path", DistinctPath(GetField(v, "path"), key), "proxy");
  }

  lemma KindKept(source: string, key: string, v: Node)
    ensures ProviderValue(source, key, v).kind == v.kind
  {
    hide DistinctPath, SetField, GetField;
    var path := GetField(v, "path");
    FieldKeepsKind(v, "path", DistinctPath(path, key));
    var v1 := if path != "" then SetField(v, "path", DistinctPath(path, key)) else v;
    FieldKeepsKind(v1, "proxy", Prefixed(source, GetField(v1, "proxy")));
  }

  lemma FieldKeepsKind(n: Node, key: string, v: string)
    ensures SetField(n, key, v).kind == n.kind
  {
  }

  lemma OtherFieldsKept(source: string, key: string, v: Node, other: string)
    requires other != "path" && other != "proxy"
    ensures GetNode(ProviderValue(source, key, v), other) == GetNode(v, other)
  {
    hide DistinctPath, SetField, GetField, GetNode;
    var path := GetField(v, "path");
    var v1 := if path != "" then SetField(v, "path", DistinctPath(path, key)) else v;
    SetFieldOther(v, "path", DistinctPath(path, key), other);
    SetFieldOther(v1, "proxy", Prefixed(source, GetField(v1, "proxy")), other);
  }
}
