/** Mihomo rule lines `TYPE[,PAYLOAD...],TARGET[,OPTION...]`: where the pruner and the
    namespacer each look for the target, and what rewriting it does to the line. */
module RuleLine {
  import opened Text
  import opened Yaml

  /** Identifiers that are never prefixed and always resolve. */
  const BUILTINS: set<string> := {"DIRECT", "REJECT", "REJECT-DROP", "PASS"}

  const NO_RESOLVE := "no-resolve"

  /** Trailing fields the namespacer skips when it looks for the target. */
  predicate Modifier(field: string) { field in {NO_RESOLVE, "src", "dport"} }

  function Fields(rule: string): (f: seq<string>)
    ensures |f| >= 1
  {
    Split(rule, ',')
  }

  // ----- the pruner's view

  /** The target's field index as `ruleTarget` finds it. */
  function TargetIndex(f: seq<string>): (t: Option<nat>)
    requires |f| >= 1
    ensures t.Some? <==> |f| >= 2
    ensures t.Some? ==> 1 <= t.value < |f|
  {
    if |f| < 2 then None
    else if f[0] == "MATCH" then Some(1)
    else if f[|f| - 1] == NO_RESOLVE && |f| >= 3 then Some(|f| - 2)
    else Some(|f| - 1)
  }

  function Target(rule: string): (t: Option<string>)
  {
    var f := Fields(rule);
    match TargetIndex(f) case None => None case Some(i) => Some(f[i])
  }

  /** What is left of a rule when its target is taken out: the part that decides matching. */
  datatype Condition = Condition(before: seq<string>, after: seq<string>)

  function ConditionOf(rule: string): (c: Option<Condition>)
  {
    var f := Fields(rule);
    match TargetIndex(f) case None => None case Some(i) => Some(Condition(f[..i], f[i + 1..]))
  }

  function Retarget(rule: string, target: string): (r: string)
    requires TargetIndex(Fields(rule)).Some?
  {
    var f := Fields(rule);
    Join(f[TargetIndex(f).value := target], ',')
  }

  /** A retargeted rule matches the same traffic and names exactly the new target. */
  lemma RetargetLaw(rule: string, target: string)
    requires Target(rule).Some? && ',' !in target && target != NO_RESOLVE
    ensures Target(Retarget(rule, target)) == Some(target)
    ensures ConditionOf(Retarget(rule, target)) == ConditionOf(rule)
    ensures Fields(Retarget(rule, target)) == Fields(rule)[TargetIndex(Fields(rule)).value := target]
  {
    hide Split, Join;
    var f := Fields(rule);
    var i := TargetIndex(f).value;
    var g := f[i := target];
    JoinOfSplit(rule, ',');
    SplitOfJoin(g, ',');
    SameCondition(f, g, i);
  }

  datatype Span = Span(start: nat, end: nat)

  /** The span of field `k`. */
  ghost function SpanOf(f: seq<string>, k: nat): (s: Span)
    requires k < |f|
  {
    Span(Offset(f, k), Offset(f, k) + |f[k]|)
  }

  ghost predicate NoComma(rule: string, from: nat, to: nat)
    requires from <= to <= |rule|
  {
    forall k :: from <= k < to ==> rule[k] != ','
  }

  lemma SplitAt(rule: string, from: nat, i: nat)
    requires from <= i <= |rule| && NoComma(rule, from, i) && (i < |rule| ==> rule[i] == ',')
    ensures i < |rule| ==> Split(rule[from..], ',') == [rule[from..i]] + Split(rule[i + 1..], ',')
    ensures i == |rule| ==> Split(rule[from..], ',') == [rule[from..]]
  {
    var rest := rule[from..];
    IndexOfIs(rest, ',', i - from);
    if i < |rule| {
      assert rest[..i - from] == rule[from..i];
      assert rest[i - from + 1..] == rule[i + 1..];
    }
  }

  /** The scan has recorded every field that ends before `from` and is inside the next one. */
  ghost predicate Scanned(rule: string, spans: seq<Span>, from: nat, i: nat) {
    var f := Fields(rule);
    && from <= i <= |rule| && NoComma(rule, from, i)
    && |spans| < |f| && from == Offset(f, |spans|) && Split(rule[from..], ',') == f[|spans|..]
    && forall k :: 0 <= k < |spans| ==> spans[k] == SpanOf(f, k)
  }

  lemma ScanComma(rule: string, spans: seq<Span>, from: nat, i: nat)
    requires Scanned(rule, spans, from, i) && i < |rule| && rule[i] == ','
    ensures Scanned(rule, spans + [Span(from, i)], i + 1, i + 1)
  {
    SplitAt(rule, from, i);
    DropStep(Fields(rule), |spans|, rule[from..i], Split(rule[i + 1..], ','));
  }

  lemma ScanStart(rule: string)
    ensures Scanned(rule, [], 0, 0)
  {
    assert rule[0..] == rule;
  }

  lemma ScanEnd(rule: string, spans: seq<Span>, from: nat)
    requires Scanned(rule, spans, from, |rule|)
    ensures |Fields(rule)| == |spans| + 1 && Span(from, |rule|) == SpanOf(Fields(rule), |spans|)
  {
    SplitAt(rule, from, |rule|);
    DropStep(Fields(rule), |spans|, rule[from..], []);
  }

  /** The field scan of `ruleTarget`: the span of every comma-separated field. */
  method FieldSpans(rule: string) returns (spans: seq<Span>)
    ensures |spans| == |Fields(rule)|
    ensures forall k :: 0 <= k < |spans| ==> spans[k] == SpanOf(Fields(rule), k)
  {
    hide Split, Offset;
    spans := [];
    var fieldStart := 0;
    ScanStart(rule);
    for i := 0 to |rule|
      invariant Scanned(rule, spans, fieldStart, i)
    {
      if rule[i] == ',' {
        ScanComma(rule, spans, fieldStart, i);
        spans := spans + [Span(fieldStart, i)];
        fieldStart := i + 1;
      }
    }
    ScanEnd(rule, spans, fieldStart);
    spans := spans + [Span(fieldStart, |rule|)];
  }

  lemma DropStep<T>(s: seq<T>, n: nat, x: T, rest: seq<T>)
    requires n < |s| && s[n..] == [x] + rest
    ensures s[n] == x && s[n + 1..] == rest
  {
  }

  lemma SpanText(rule: string, k: nat, text: string)
    requires k < |Fields(rule)|
    ensures var s := SpanOf(Fields(rule), k);
            && s.start <= s.end <= |rule| && rule[s.start..s.end] == Fields(rule)[k]
            && rule[..s.start] + text + rule[s.end..] == Join(Fields(rule)[k := text], ',')
  {
    hide Split, Join, Offset;
    JoinOfSplit(rule, ',');
    SpliceIsFieldUpdate(Fields(rule), ',', k, text);
  }

  /** `ruleTarget`: the target's text and its byte range. */
  method FindTarget(rule: string) returns (target: string, start: nat, end: nat, ok: bool)
    ensures ok == Target(rule).Some?
    ensures ok ==> start <= end <= |rule| && Target(rule) == Some(target) && rule[start..end] == target
    ensures ok ==> forall t :: rule[..start] + t + rule[end..] == Retarget(rule, t)
  {
    target, start, end, ok := "", 0, 0, false;
    var spans := FieldSpans(rule);
    if |spans| < 2 { return; }
    var k := |spans| - 1;
    SpanText(rule, 0, "");
    SpanText(rule, k, "");
    if rule[spans[0].start..spans[0].end] == "MATCH" {
      k := 1;
    } else if rule[spans[k].start..spans[k].end] == NO_RESOLVE && |spans| >= 3 {
      k := |spans| - 2;
    }
    forall text { SpanText(rule, k, text); }
    SpanText(rule, k, "");
    target, start, end, ok := rule[spans[k].start..spans[k].end], spans[k].start, spans[k].end, true;
  }

  // ----- the namespacer's view

  /** The rightmost field at or left of `i` that is not a modifier; 0 when there is none. */
  function SkipModifiers(f: seq<string>, i: nat): (t: nat)
    requires i < |f|
    ensures t <= i
    ensures forall k :: t < k <= i ==> Modifier(f[k])
    ensures t > 0 ==> !Modifier(f[t])
  {
    if i >= 1 && Modifier(f[i]) then SkipModifiers(f, i - 1) else i
  }

  function Prefixed(source: string, name: string): (r: string) { source + "_" + name }

  /** A reference as seen after its source was namespaced. */
  function PrefixedRef(source: string, name: string): (r: string) {
    if name in BUILTINS then name else Prefixed(source, name)
  }

  function NamespacedFields(f: seq<string>, source: string): (r: seq<string>)
    requires |f| >= 1
    ensures |r| == |f|
  {
    if |f| < 2 then f else
      var ruleSet := f[0] == "RULE-SET";
      var f1 := if ruleSet then f[1 := Prefixed(source, f[1])] else f;
      var t := SkipModifiers(f1, |f1| - 1);
      if ruleSet && t <= 1 then f1 else f1[t := PrefixedRef(source, f1[t])]
  }

  /** `rewriteRuleTarget` as a value. */
  function NamespacedRule(rule: string, source: string): (r: string) {
    Join(NamespacedFields(Fields(rule), source), ',')
  }

  /** The backward scan of `rewriteRuleTarget`. */
  method LastNonModifier(parts: seq<string>) returns (target: nat)
    requires |parts| >= 1
    ensures target == SkipModifiers(parts, |parts| - 1)
  {
    target := |parts| - 1;
    while target >= 1 && Modifier(parts[target])
      invariant target < |parts| && SkipModifiers(parts, target) == SkipModifiers(parts, |parts| - 1)
    {
      target := target - 1;
    }
  }

  /** `rewriteRuleTarget` */
  method RewriteRuleTarget(rule: string, source: string) returns (r: string)
    ensures r == NamespacedRule(rule, source)
  {
    hide Split, Join;
    var parts := Split(rule, ',');
    JoinOfSplit(rule, ',');
    if |parts| < 2 { return rule; }
    var isRuleSet := parts[0] == "RULE-SET";
    if isRuleSet { parts := parts[1 := source + "_" + parts[1]]; }
    var target := LastNonModifier(parts);
    if isRuleSet && target <= 1 { return Join(parts, ','); }
    if parts[target] in BUILTINS {
      assert parts[target := parts[target]] == parts;
      return Join(parts, ',');
    }
    parts := parts[target := source + "_" + parts[target]];
    return Join(parts, ',');
  }

  /** `TYPE[,payload...],TARGET[,no-resolve]`, MATCH without a payload, RULE-SET with the
      target after the provider. */
  predicate WellFormedFields(f: seq<string>)
    requires |f| >= 1
  {
    var t := TargetIndex(f);
    && t.Some?
    && !Modifier(f[t.value])
    && (f[0] == "MATCH" ==> |f| == 2 || (|f| == 3 && f[2] == NO_RESOLVE))
    && (f[0] == "RULE-SET" ==> t.value >= 2)
  }

  predicate WellFormed(rule: string) { WellFormedFields(Fields(rule)) }

  /** The pruner and the namespacer pick the same field exactly when the pruner's choice is no
      modifier and only modifiers follow it. */
  lemma TargetsAgree(f: seq<string>)
    requires |f| >= 2
    ensures SkipModifiers(f, |f| - 1) == TargetIndex(f).value
       <==> !Modifier(f[TargetIndex(f).value]) && forall k :: TargetIndex(f).value < k < |f| ==> Modifier(f[k])
  {
  }

  ghost predicate CommaFree(s: string) { ',' !in s }

  lemma NamespacedFieldsLaw(rule: string, source: string)
    requires CommaFree(source)
    ensures Fields(NamespacedRule(rule, source)) == NamespacedFields(Fields(rule), source)
  {
    var g := NamespacedFields(Fields(rule), source);
    JoinOfSplit(rule, ',');
    assert forall k :: 0 <= k < |g| ==> ',' !in g[k];
    SplitOfJoin(g, ',');
  }

  /** What namespacing does to the fields of a well-formed rule: the target and a RULE-SET rule's
      provider are prefixed, every other field stays. */
  ghost predicate OnlyRefsPrefixed(f: seq<string>, g: seq<string>, source: string) {
    && |f| >= 2 && |g| == |f| && TargetIndex(g) == TargetIndex(f)
    && g[TargetIndex(f).value] == PrefixedRef(source, f[TargetIndex(f).value])
    && (f[0] == "RULE-SET" ==> g[1] == Prefixed(source, f[1]))
    && forall k :: 0 <= k < |f| && k != TargetIndex(f).value && !(f[0] == "RULE-SET" && k == 1) ==> g[k] == f[k]
  }

  lemma TargetIsScanned(f: seq<string>)
    requires |f| >= 1 && WellFormedFields(f)
    ensures SkipModifiers(f, |f| - 1) == TargetIndex(f).value
  {
    TargetsAgree(f);
  }

  lemma NamespacedFieldsTarget(f: seq<string>, source: string)
    requires |f| >= 1 && WellFormedFields(f)
    ensures OnlyRefsPrefixed(f, NamespacedFields(f, source), source)
  {
    hide SkipModifiers, PrefixedRef;
    var t := TargetIndex(f).value;
    PrefixedRefIsNoOption(source, f[t]);
    if f[0] == "RULE-SET" {
      var f1 := f[1 := Prefixed(source, f[1])];
      assert WellFormedFields(f1);
      TargetIsScanned(f1);
    } else {
      TargetIsScanned(f);
    }
  }

  lemma SameCondition(f: seq<string>, g: seq<string>, t: nat)
    requires t < |f| == |g| && forall k :: 0 <= k < |f| && k != t ==> g[k] == f[k]
    ensures g[..t] == f[..t] && g[t + 1..] == f[t + 1..]
  {
  }

  /** On a well-formed rule namespacing prefixes exactly the target (and a RULE-SET rule's
      provider), the pruner then finds that prefixed target, and unless it is a RULE-SET rule it
      matches what it matched. */
  lemma NamespacedTarget(rule: string, source: string)
    requires CommaFree(source) && WellFormed(rule)
    ensures Target(NamespacedRule(rule, source)) == Some(PrefixedRef(source, Target(rule).value))
    ensures OnlyRefsPrefixed(Fields(rule), Fields(NamespacedRule(rule, source)), source)
    ensures Fields(rule)[0] != "RULE-SET" ==> ConditionOf(NamespacedRule(rule, source)) == ConditionOf(rule)
  {
    hide Fields, NamespacedRule, NamespacedFields, PrefixedRef, WellFormedFields;
    var f, g := Fields(rule), Fields(NamespacedRule(rule, source));
    NamespacedFieldsLaw(rule, source);
    NamespacedFieldsTarget(f, source);
    if f[0] != "RULE-SET" { SameCondition(f, g, TargetIndex(f).value); }
  }

  lemma PrefixedRefIsNoOption(source: string, name: string)
    requires name != NO_RESOLVE
    ensures PrefixedRef(source, name) != NO_RESOLVE
  {
    if name !in BUILTINS {
      assert Prefixed(source, name)[|source|] == '_';
      assert '_' in Prefixed(source, name);
    }
  }

  /** The provider a RULE-SET line names. */
  function Provider(rule: string): (p: Option<string>)
  {
    var f := Fields(rule);
    if |f| >= 2 && f[0] == "RULE-SET" then Some(f[1]) else None
  }

  /** Only a line that starts with RULE-SET names a provider. Inside a logical rule such as
      `AND,((RULE-SET,ads),(NETWORK,udp)),T` the passes see plain fields and keep them as they are. */
  lemma NestedProviderKept(rule: string, source: string, k: nat)
    requires CommaFree(source) && WellFormed(rule) && Fields(rule)[0] != "RULE-SET"
    requires k < |Fields(rule)| && k != TargetIndex(Fields(rule)).value
    ensures Provider(rule) == None && Provider(NamespacedRule(rule, source)) == None
    ensures k < |Fields(NamespacedRule(rule, source))| && Fields(NamespacedRule(rule, source))[k] == Fields(rule)[k]
  {
    hide Fields, NamespacedRule, PrefixedRef, WellFormedFields;
    NamespacedTarget(rule, source);
  }

  /** Such a rule: the target gets the prefix, the provider inside does not. */
  lemma NestedProviderIsNotPrefixed(source: string, provider: string, target: string)
    requires CommaFree(source) && CommaFree(provider) && CommaFree(target) && target !in BUILTINS && !Modifier(target)
    ensures var head := ["AND", "((RULE-SET", provider + ")", "(NETWORK", "udp))"];
            && Provider(Join(head + [target], ',')) == None
            && NamespacedRule(Join(head + [target], ','), source) == Join(head + [Prefixed(source, target)], ',')
  {
    hide Split, Join;
    var head := ["AND", "((RULE-SET", provider + ")", "(NETWORK", "udp))"];
    var f := head + [target];
    SplitOfJoin(f, ',');
    assert f[|f| - 1] == target && SkipModifiers(f, |f| - 1) == |f| - 1;
    assert f[|f| - 1 := Prefixed(source, target)] == head + [Prefixed(source, target)];
  }

  // ----- on rules as they are written

  /** The identifiers the rule engine itself provides. */
  ghost predicate BuiltIn(m: string) { m == "DIRECT" || m == "REJECT" || m == "REJECT-DROP" || m == "PASS" }

  ghost predicate Option(m: string) { m == "no-resolve" || m == "src" || m == "dport" }

  ghost predicate CommaFreeAll(f: seq<string>) { forall k :: 0 <= k < |f| ==> ',' !in f[k] }

  lemma FieldsOfJoin(f: seq<string>)
    requires f != [] && CommaFreeAll(f)
    ensures Fields(Join(f, ',')) == f
  {
    hide Split, Join;
    SplitOfJoin(f, ',');
  }

  /** The field behind `MATCH`, the one before a trailing `no-resolve` that has two fields in front of it, or
      the last. */
  ghost function WrittenAt(f: seq<string>): (i: nat)
    requires |f| >= 2
    ensures i < |f|
  {
    if f[0] == "MATCH" then 1 else if |f| >= 3 && f[|f| - 1] == "no-resolve" then |f| - 2 else |f| - 1
  }

  lemma WrittenIndex(f: seq<string>)
    requires f != []
    ensures TargetIndex(f) == if |f| == 1 then None else Some(WrittenAt(f))
  {
  }

  /** Where the pruner sees the target and the provider of a rule written out of these fields. */
  lemma WrittenTarget(f: seq<string>)
    requires f != [] && CommaFreeAll(f)
    ensures var rule := Join(f, ',');
            && Target(rule) == (if |f| == 1 then None else Some(f[WrittenAt(f)]))
            && (Provider(rule).Some? <==> |f| >= 2 && f[0] == "RULE-SET")
            && (Provider(rule).Some? ==> Provider(rule) == Some(f[1]))
  {
    hide Fields, Join, CommaFreeAll, TargetIndex, WrittenAt;
    FieldsOfJoin(f);
    WrittenIndex(f);
  }

  /** The namespaced form of a rule written as `head`, target and trailing options. */
  function Prefixing(source: string, head: seq<string>, target: string): (r: seq<string>) {
    (if |head| >= 2 && head[0] == "RULE-SET" then head[1 := source + "_" + head[1]] else head) + [target]
  }

  lemma {:induction false} SkipsOptions(f: seq<string>, t: nat, i: nat)
    requires 1 <= t <= i < |f| && !Option(f[t]) && forall k :: t < k <= i ==> Option(f[k])
    ensures SkipModifiers(f, i) == t
  {
    if t < i { SkipsOptions(f, t, i - 1); }
  }

  /** Namespacing on written rules: the target in front of the options is prefixed unless it is a built-in,
      so is the provider of a RULE-SET rule, and nothing else changes. */
  lemma WrittenNamespaced(source: string, head: seq<string>, target: string, options: seq<string>)
    requires CommaFreeAll(head) && ',' !in target && !Option(target)
    requires head != [] && (head[0] == "RULE-SET" ==> |head| >= 2)
             && forall k :: 0 <= k < |options| ==> Option(options[k])
    ensures NamespacedRule(Join(head + [target] + options, ','), source)
         == Join(Prefixing(source, head, if BuiltIn(target) then target else source + "_" + target) + options, ',')
  {
    hide Fields, Join, CommaFreeAll, NamespacedFields, Prefixing;
    var f := head + [target] + options;
    OptionsCommaFree(head, target, options);
    FieldsOfJoin(f);
    WrittenFields(source, head, target, options);
  }

  lemma OptionsCommaFree(head: seq<string>, target: string, options: seq<string>)
    requires CommaFreeAll(head) && ',' !in target && forall k :: 0 <= k < |options| ==> Option(options[k])
    ensures CommaFreeAll(head + [target] + options)
  {
    var f := head + [target] + options;
    forall k | 0 <= k < |f| ensures ',' !in f[k] { if k > |head| { assert f[k] == options[k - |head| - 1]; } }
  }

  lemma WrittenFields(source: string, head: seq<string>, target: string, options: seq<string>)
    requires head != [] && (head[0] == "RULE-SET" ==> |head| >= 2) && !Option(target)
             && forall k :: 0 <= k < |options| ==> Option(options[k])
    ensures NamespacedFields(head + [target] + options, source)
         == Prefixing(source, head, if BuiltIn(target) then target else source + "_" + target) + options
  {
    hide SkipModifiers, Option, BuiltIn, PrefixedRef;
    var f, f1 := head + [target] + options, Prefixing(source, head, target) + options;
    assert f1 == if f[0] == "RULE-SET" then f[1 := Prefixed(source, f[1])] else f;
    assert f1[|head|] == target;
    forall k | |head| < k < |f1| ensures Option(f1[k]) { assert f1[k] == options[k - |head| - 1]; }
    SkipsOptions(f1, |head|, |f1| - 1);
    RefIs(source, target);
    assert f1[|head| := PrefixedRef(source, target)] == Prefixing(source, head, PrefixedRef(source, target)) + options;
  }

  lemma RefIs(source: string, m: string)
    ensures PrefixedRef(source, m) == if BuiltIn(m) then m else source + "_" + m
  {
  }
}
