/** The unified rule list: upstream and custom rules merged by priority, and what first-match
    routing through it means. */
module RuleMerge {
  import opened Text
  import opened Sorting
  import opened Yaml
  import opened RuleLine
  import opened MergeNodes

  /** A source of rules: an upstream subscription or a custom rule set. */
  datatype Contributor = Contributor(name: string, priority: int, rules: seq<string>)

  /** The three parallel slices. */
  datatype MergedRules = MergedRules(rules: seq<string>, priorities: seq<int>, contributors: seq<string>)

  ghost predicate Aligned(m: MergedRules) { |m.rules| == |m.priorities| == |m.contributors| }

  /** What one upstream source contributes: its rules without the trailing one. */
  function UpstreamPart(c: Contribution): (r: seq<Contributor>) {
    if |c.rules| <= 1 then [] else [Contributor(c.name, c.priority, c.rules[..|c.rules| - 1])]
  }

  function UpstreamParts(cs: seq<Contribution>): (r: seq<Contributor>) {
    if cs == [] then [] else UpstreamParts(cs[..|cs| - 1]) + UpstreamPart(cs[|cs| - 1])
  }

  function CustomParts(customs: seq<Contributor>): (r: seq<Contributor>) {
    if customs == [] then [] else
      var c := customs[|customs| - 1];
      CustomParts(customs[..|customs| - 1]) + (if |c.rules| == 0 then [] else [c])
  }

  /** Priority ascending, then name ascending. */
  predicate Earlier(a: Contributor, b: Contributor) {
    a.priority < b.priority || (a.priority == b.priority && Less(a.name, b.name))
  }

  lemma EarlierIsStrictWeak()
    ensures StrictWeak(Earlier)
  {
    LessIsStrictWeak();
  }

  function Emit(m: MergedRules, c: Contributor): (r: MergedRules) {
    MergedRules(m.rules + c.rules,
                m.priorities + seq(|c.rules|, i => c.priority),
                m.contributors + seq(|c.rules|, i => c.name))
  }

  function EmitAll(cs: seq<Contributor>): (r: MergedRules)
    ensures Aligned(r)
  {
    if cs == [] then MergedRules([], [], []) else Emit(EmitAll(cs[..|cs| - 1]), cs[|cs| - 1])
  }

  /** `MergeUnifiedRules` on collected contributors. */
  function Merged(contributors: seq<Contributor>, fallback: string): (r: MergedRules)
    ensures Aligned(r)
  {
    var m := EmitAll(StableSort(contributors, Earlier));
    MergedRules(m.rules + ["MATCH," + fallback], m.priorities + [0], m.contributors + [""])
  }

  // ----- the merge method

  /** What the method reads of a source. */
  ghost predicate RulesOf(upstream: seq<Contributor>, cs: seq<Contribution>) {
    |upstream| == |cs| && forall i :: 0 <= i < |cs| ==>
                            upstream[i] == Contributor(cs[i].name, cs[i].priority, cs[i].rules)
  }

  /** `MergeUnifiedRules` */
  method MergeUnifiedRules(upstreamRules: seq<Contributor>, customs: seq<Contributor>, fallback: string,
                           ghost cs: seq<Contribution>)
    returns (r: MergedRules)
    requires RulesOf(upstreamRules, cs)
    ensures r == Merged(UpstreamParts(cs) + CustomParts(customs), fallback)
  {
    var contributors: seq<Contributor> := [];
    for i := 0 to |upstreamRules|
      invariant contributors == UpstreamParts(cs[..i])
    {
      assert cs[..i + 1][..i] == cs[..i];
      var source := upstreamRules[i];
      if |source.rules| == 0 { continue; }
      var rules := source.rules[..|source.rules| - 1];
      if |rules| == 0 { continue; }
      contributors := contributors + [Contributor(source.name, source.priority, rules)];
    }
    assert cs[..|cs|] == cs;
    ghost var upstream := contributors;
    for i := 0 to |customs|
      invariant contributors == upstream + CustomParts(customs[..i])
    {
      assert customs[..i + 1][..i] == customs[..i];
      if |customs[i].rules| == 0 { continue; }
      contributors := contributors + [customs[i]];
    }
    assert customs[..|customs|] == customs;
    r := EmitSorted(StableSort(contributors, Earlier), fallback);
  }

  /** The two nested append loops and the trailing fallback rule. */
  method EmitSorted(sorted: seq<Contributor>, fallback: string) returns (r: MergedRules)
    ensures var m := EmitAll(sorted);
            r == MergedRules(m.rules + ["MATCH," + fallback], m.priorities + [0], m.contributors + [""])
  {
    var rules: seq<string>, priorities: seq<int>, names: seq<string> := [], [], [];
    for i := 0 to |sorted|
      invariant MergedRules(rules, priorities, names) == EmitAll(sorted[..i])
    {
      assert sorted[..i + 1][..i] == sorted[..i];
      var c := sorted[i];
      ghost var before := MergedRules(rules, priorities, names);
      for k := 0 to |c.rules|
        invariant MergedRules(rules, priorities, names) == Emit(before, c.(rules := c.rules[..k]))
      {
        assert c.rules[..k + 1] == c.rules[..k] + [c.rules[k]];
        rules, priorities, names := rules + [c.rules[k]], priorities + [c.priority], names + [c.name];
        assert rules == before.rules + c.rules[..k + 1];
        assert priorities == before.priorities + seq(k + 1, i => c.priority);
        assert names == before.contributors + seq(k + 1, i => c.name);
      }
      assert c.rules[..|c.rules|] == c.rules;
    }
    assert sorted[..|sorted|] == sorted;
    r := MergedRules(rules + ["MATCH," + fallback], priorities + [0], names + [""]);
  }

  // ----- routing

  /** How traffic matches rules: only a rule with a target can match, what is left of it
      without the target decides, and MATCH matches everything. */
  ghost predicate Matcher(hit: string -> bool) {
    && (forall r :: hit(r) ==> Target(r).Some?)
    && (forall r, r' :: ConditionOf(r) == ConditionOf(r') ==> hit(r) == hit(r'))
    && (forall r :: ConditionOf(r) == Some(Condition(["MATCH"], [])) ==> hit(r))
  }

  /** The first rule that matches. */
  function FirstHit(rules: seq<string>, hit: string -> bool): (r: Option<string>)
    ensures r.Some? ==> r.value in rules && hit(r.value)
  {
    if rules == [] then None
    else if hit(rules[0]) then Some(rules[0])
    else FirstHit(rules[1..], hit)
  }

  lemma {:induction false} FirstHitConcat(a: seq<string>, b: seq<string>, hit: string -> bool)
    ensures FirstHit(a + b, hit) == if FirstHit(a, hit).Some? then FirstHit(a, hit) else FirstHit(b, hit)
  {
    if a == [] {
      assert a + b == b;
    } else {
      FirstHitConcat(a[1..], b, hit);
      assert (a + b)[1..] == a[1..] + b;
    }
  }

  /** The pruner's rewriting of one rule. */
  function PruneRule(rule: string, removed: set<string>, fallback: string): (r: string) {
    match Target(rule)
    case None => rule
    case Some(t) => if t in removed then Retarget(rule, fallback) else rule
  }

  function PruneRules(rules: seq<string>, removed: set<string>, fallback: string): (r: seq<string>)
    ensures |r| == |rules|
  {
    seq(|rules|, i requires 0 <= i < |rules| => PruneRule(rules[i], removed, fallback))
  }

  function PruneTarget(t: string, removed: set<string>, fallback: string): (r: string) {
    if t in removed then fallback else t
  }

  /** A name that can stand as a rule target. */
  ghost predicate TargetName(s: string) { ',' !in s && s != NO_RESOLVE }

  lemma PruneRuleLaw(rule: string, removed: set<string>, fallback: string)
    requires TargetName(fallback)
    ensures Target(rule).None? ==> PruneRule(rule, removed, fallback) == rule
    ensures Target(rule).Some? ==>
      Target(PruneRule(rule, removed, fallback)) == Some(PruneTarget(Target(rule).value, removed, fallback))
    ensures ConditionOf(PruneRule(rule, removed, fallback)) == ConditionOf(rule)
  {
    if Target(rule).Some? && Target(rule).value in removed { RetargetLaw(rule, fallback); }
  }

  ghost predicate PruneBlind(hit: string -> bool, removed: set<string>, fallback: string) {
    forall r :: hit(PruneRule(r, removed, fallback)) == hit(r)
  }

  lemma MatchersArePruneBlind(hit: string -> bool, removed: set<string>, fallback: string)
    requires TargetName(fallback) && Matcher(hit)
    ensures PruneBlind(hit, removed, fallback)
  {
    forall r ensures hit(PruneRule(r, removed, fallback)) == hit(r) {
      PruneRuleLaw(r, removed, fallback);
    }
  }

  /** Pruning rewrites the rule routing picks and picks no other. */
  lemma {:induction false} PruneKeepsChoice(rules: seq<string>, removed: set<string>, fallback: string,
                                            hit: string -> bool)
    requires PruneBlind(hit, removed, fallback)
    ensures var before, after := FirstHit(rules, hit), FirstHit(PruneRules(rules, removed, fallback), hit);
            if before.None? then after.None? else after == Some(PruneRule(before.value, removed, fallback))
  {
    if rules != [] {
      PruneKeepsChoice(rules[1..], removed, fallback, hit);
      assert PruneRules(rules, removed, fallback)[1..] == PruneRules(rules[1..], removed, fallback);
    }
  }

  /** The first contributor of the list that has a matching rule decides. */
  function Layered(cs: seq<Contributor>, hit: string -> bool): (t: Option<string>) {
    if cs == [] then None
    else
      var t := Layered(cs[..|cs| - 1], hit);
      if t.Some? then t else FirstHit(cs[|cs| - 1].rules, hit)
  }

  lemma {:induction false} EmitRoutesLayered(cs: seq<Contributor>, hit: string -> bool)
    ensures FirstHit(EmitAll(cs).rules, hit) == Layered(cs, hit)
  {
    if cs != [] {
      EmitRoutesLayered(cs[..|cs| - 1], hit);
      FirstHitConcat(EmitAll(cs[..|cs| - 1]).rules, cs[|cs| - 1].rules, hit);
    }
  }

  ghost predicate NobodyBelow(cs: seq<Contributor>, hit: string -> bool, k: nat)
    requires k <= |cs|
  {
    forall l :: 0 <= l < k ==> FirstHit(cs[l].rules, hit).None?
  }

  lemma {:induction false} LayeredPick(cs: seq<Contributor>, hit: string -> bool, k: nat)
    requires k <= |cs| && NobodyBelow(cs, hit, k)
    ensures k == |cs| ==> Layered(cs, hit).None?
    ensures k < |cs| && FirstHit(cs[k].rules, hit).Some? ==> Layered(cs, hit) == FirstHit(cs[k].rules, hit)
  {
    if cs != [] {
      var init := cs[..|cs| - 1];
      LayeredPick(init, hit, if k < |cs| then k else k - 1);
    }
  }

  /** `i` is the contributor that decides: it has a matching rule, and comes before every other
      that has one, by priority, then name, then input order. */
  ghost predicate Decides(cs: seq<Contributor>, hit: string -> bool, i: nat) {
    && i < |cs| && FirstHit(cs[i].rules, hit).Some?
    && forall j: nat :: j < |cs| && j != i && FirstHit(cs[j].rules, hit).Some? ==>
         || cs[i].priority < cs[j].priority
         || (cs[i].priority == cs[j].priority
             && (Less(cs[i].name, cs[j].name) || (cs[i].name == cs[j].name && i < j)))
  }

  /** Which is the order the merge sorts by. */
  lemma BeforeExactly(cs: seq<Contributor>, i: nat, j: nat)
    requires i < |cs| && j < |cs| && i != j
    ensures Before(cs, Earlier, i, j) <==>
            || cs[i].priority < cs[j].priority
            || (cs[i].priority == cs[j].priority
                && (Less(cs[i].name, cs[j].name) || (cs[i].name == cs[j].name && i < j)))
  {
    LessTotal(cs[i].name, cs[j].name);
  }

  lemma BeforeAsymmetric(cs: seq<Contributor>, i: nat, j: nat)
    requires i < |cs| && j < |cs| && Before(cs, Earlier, i, j)
    ensures i != j && !Before(cs, Earlier, j, i)
  {
    LessTotal(cs[i].name, cs[j].name);
  }

  lemma SortedLayersDecide(cs: seq<Contributor>, hit: string -> bool, i: nat)
    requires Decides(cs, hit, i)
    ensures Layered(StableSort(cs, Earlier), hit) == FirstHit(cs[i].rules, hit)
  {
    EarlierIsStrictWeak();
    StableSortIsStable(cs, Earlier);
    var perm, sorted := SortPerm(cs, Earlier, |cs|), StableSort(cs, Earlier);
    assert i in perm;
    var k :| 0 <= k < |perm| && perm[k] == i;
    forall l | 0 <= l < k ensures FirstHit(sorted[l].rules, hit).None? {
      assert Before(cs, Earlier, perm[l], perm[k]);
      BeforeAsymmetric(cs, perm[l], perm[k]);
      BeforeExactly(cs, perm[k], perm[l]);
    }
    LayeredPick(sorted, hit, k);
  }

  lemma FirstWithHit(cs: seq<Contributor>, hit: string -> bool) returns (k: nat)
    ensures k <= |cs| && NobodyBelow(cs, hit, k)
    ensures k < |cs| ==> FirstHit(cs[k].rules, hit).Some?
  {
    k := 0;
    while k < |cs| && FirstHit(cs[k].rules, hit).None?
      invariant k <= |cs| && NobodyBelow(cs, hit, k)
    {
      k := k + 1;
    }
  }

  /** Some contributor decides whenever one has a matching rule. */
  lemma SomeoneDecides(cs: seq<Contributor>, hit: string -> bool)
    ensures Layered(StableSort(cs, Earlier), hit).None? || exists i :: Decides(cs, hit, i)
  {
    EarlierIsStrictWeak();
    StableSortIsStable(cs, Earlier);
    var perm, sorted := SortPerm(cs, Earlier, |cs|), StableSort(cs, Earlier);
    var k := FirstWithHit(sorted, hit);
    LayeredPick(sorted, hit, k);
    if k < |sorted| {
      var i := perm[k];
      forall j: nat | j < |cs| && j != i && FirstHit(cs[j].rules, hit).Some?
        ensures || cs[i].priority < cs[j].priority
                || (cs[i].priority == cs[j].priority
                    && (Less(cs[i].name, cs[j].name) || (cs[i].name == cs[j].name && i < j)))
      {
        assert j in perm;
        var l :| 0 <= l < |perm| && perm[l] == j;
        assert sorted[l] == cs[j] && l > k;
        assert Before(cs, Earlier, perm[k], perm[l]);
        BeforeExactly(cs, i, j);
      }
      assert Decides(cs, hit, i);
    }
  }

  /** The rule traffic is routed by in the served list. */
  function Served(cs: seq<Contributor>, fallback: string, removed: set<string>,
                  hit: string -> bool): (r: Option<string>) {
    FirstHit(PruneRules(Merged(cs, fallback).rules, removed, fallback), hit)
  }

  lemma MergedRoutes(cs: seq<Contributor>, fallback: string, hit: string -> bool)
    requires TargetName(fallback) && Matcher(hit)
    ensures var layered := Layered(StableSort(cs, Earlier), hit);
            FirstHit(Merged(cs, fallback).rules, hit) == if layered.Some? then layered else Some("MATCH," + fallback)
  {
    var sorted := StableSort(cs, Earlier);
    EmitRoutesLayered(sorted, hit);
    FirstHitConcat(EmitAll(sorted).rules, ["MATCH," + fallback], hit);
    FallbackRule(fallback);
  }

  /** Routing through the served rule list is layered lookup: the deciding contributor's own
      first match decides, with a pruned target replaced by the fallback. */
  lemma RoutingIsLayered(cs: seq<Contributor>, fallback: string, removed: set<string>, hit: string -> bool, i: nat)
    requires TargetName(fallback) && Matcher(hit) && Decides(cs, hit, i)
    ensures var rule := FirstHit(cs[i].rules, hit).value;
            && Served(cs, fallback, removed, hit) == Some(PruneRule(rule, removed, fallback))
            && Target(rule).Some?
            && Target(PruneRule(rule, removed, fallback)) == Some(PruneTarget(Target(rule).value, removed, fallback))
  {
    MatchersArePruneBlind(hit, removed, fallback);
    PruneKeepsChoice(Merged(cs, fallback).rules, removed, fallback, hit);
    MergedRoutes(cs, fallback, hit);
    SortedLayersDecide(cs, hit, i);
    PruneRuleLaw(FirstHit(cs[i].rules, hit).value, removed, fallback);
  }

  /** When no contributor matches, the fallback decides. */
  lemma UnmatchedGoesToFallback(cs: seq<Contributor>, fallback: string, removed: set<string>, hit: string -> bool)
    requires TargetName(fallback) && Matcher(hit)
    ensures (exists i :: Decides(cs, hit, i)) ||
            var served := Served(cs, fallback, removed, hit);
            served.Some? && Target(served.value) == Some(fallback)
  {
    MatchersArePruneBlind(hit, removed, fallback);
    PruneKeepsChoice(Merged(cs, fallback).rules, removed, fallback, hit);
    MergedRoutes(cs, fallback, hit);
    SomeoneDecides(cs, hit);
    FallbackRule(fallback);
    PruneRuleLaw("MATCH," + fallback, removed, fallback);
  }

  lemma FallbackRule(fallback: string)
    requires ',' !in fallback
    ensures Target("MATCH," + fallback) == Some(fallback)
    ensures ConditionOf("MATCH," + fallback) == Some(Condition(["MATCH"], []))
    ensures Fields("MATCH," + fallback) == ["MATCH", fallback]
  {
    var f := ["MATCH", fallback];
    assert f[1..] == [fallback];
    assert Join(f, ',') == "MATCH" + [','] + fallback;
    assert "MATCH," == "MATCH" + [','];
    SplitOfJoin(f, ',');
    assert f[..1] == ["MATCH"] && f[2..] == [];
  }

  /** Every served rule but the last comes, with its priority and name, from one contributor. */
  lemma {:induction false} EmitProvenance(cs: seq<Contributor>, k: nat)
    requires k < |EmitAll(cs).rules|
    ensures exists i, j :: 0 <= i < |cs| && 0 <= j < |cs[i].rules| && EmitAll(cs).rules[k] == cs[i].rules[j]
              && EmitAll(cs).priorities[k] == cs[i].priority && EmitAll(cs).contributors[k] == cs[i].name
  {
    var init, last := cs[..|cs| - 1], cs[|cs| - 1];
    var n := |EmitAll(init).rules|;
    if k < n {
      EmitProvenance(init, k);
      var i, j :| 0 <= i < |init| && 0 <= j < |init[i].rules| && EmitAll(init).rules[k] == init[i].rules[j]
        && EmitAll(init).priorities[k] == init[i].priority && EmitAll(init).contributors[k] == init[i].name;
      assert cs[i] == init[i];
    } else {
      assert cs[|cs| - 1].rules[k - n] == EmitAll(cs).rules[k];
    }
  }
}
