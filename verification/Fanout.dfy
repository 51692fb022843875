/** Dialer fan-out: copies of the operator's own proxies, one per generated group. */
module Fanout {
  import opened Text
  import opened Yaml
  import opened Namespace
  import opened MergeNodes
  import opened Regions

  predicate IsTarget(name: string) {
    REGION <= name || CONTINENT <= name || LB_REGION <= name || LB_CONTINENT <= name
  }

  function TargetNames(gs: seq<Node>): (r: seq<string>) {
    if gs == [] then [] else
      var n := Name(gs[|gs| - 1]);
      TargetNames(gs[..|gs| - 1]) + (if IsTarget(n) then [n] else [])
  }

  /** `stripUnderscore` */
  function StripUnderscore(s: string): (r: string) { if s != "" && s[0] == '_' then s[1..] else s }

  function ViaName(tag: string, own: string): (r: string) { "via_" + tag + "__" + own }

  function Copy(own: Node, name: string, dialer: string): (r: Node) {
    SetValue(SetValue(own, "name", StrNode(name)), "dialer-proxy", StrNode(dialer))
  }

  /** Own proxies that fan out: named mappings that have not chosen a dialer themselves. */
  predicate Eligible(own: Node) {
    own.kind == Mapping && Name(own) != "" && GetField(own, "dialer-proxy") == ""
  }

  /** Own proxies passed over because they declare a dialer. */
  predicate HasDialer(own: Node) {
    own.kind == Mapping && Name(own) != "" && GetField(own, "dialer-proxy") != ""
  }

  /** The copy number `j` of an own proxy: AUTO first, then the target groups in order. */
  function CopyAt(own: Node, targets: seq<string>, selector: string, j: nat): (r: Node)
    requires j <= |targets|
  {
    var p := StripUnderscore(Name(own));
    if j == 0 then Copy(own, ViaName("AUTO", p), selector)
    else Copy(own, ViaName(StripUnderscore(targets[j - 1]), p), targets[j - 1])
  }

  function CopiesOf(own: Node, targets: seq<string>, selector: string): (r: seq<Node>)
    ensures |r| == 1 + |targets|
  {
    seq(1 + |targets|, j requires 0 <= j <= |targets| => CopyAt(own, targets, selector, j))
  }

  function EligibleOwns(owns: seq<Node>): (r: seq<Node>)
    ensures forall i :: 0 <= i < |r| ==> Eligible(r[i])
  {
    if owns == [] then [] else
      var o := owns[|owns| - 1];
      EligibleOwns(owns[..|owns| - 1]) + (if Eligible(o) then [o] else [])
  }

  function SkippedOwns(owns: seq<Node>): (r: nat) {
    if owns == [] then 0 else SkippedOwns(owns[..|owns| - 1]) + (if HasDialer(owns[|owns| - 1]) then 1 else 0)
  }

  function Copies(owns: seq<Node>, targets: seq<string>, selector: string): (r: seq<Node>) {
    if owns == [] then [] else
      var o := owns[|owns| - 1];
      Copies(owns[..|owns| - 1], targets, selector) + (if Eligible(o) then CopiesOf(o, targets, selector) else [])
  }

  /** `AppendFanoutProxies` as a value. */
  function FanoutProxies(owns: seq<Node>, gs: seq<Node>, selector: string): (r: seq<Node>) {
    Copies(owns, TargetNames(gs), DefaultSelector(selector))
  }

  // ----- laws

  /** Own proxies that fan out, exactly: the named mappings without a dialer of their own, in order. */
  lemma {:induction false} EligibleExactly(owns: seq<Node>) returns (at: seq<nat>)
    ensures Selects(owns, at, EligibleOwns(owns))
    ensures forall i: nat :: i in at <==>
              i < |owns| && owns[i].kind == Mapping && GetField(owns[i], "name") != ""
              && GetField(owns[i], "dialer-proxy") == ""
  {
    hide Selects, GetField;
    if owns == [] {
      at := [];
      NothingSelected(owns);
    } else {
      var init, o := owns[..|owns| - 1], owns[|owns| - 1];
      assert owns == init + [o];
      at := EligibleExactly(init);
      SelectsMore(init, at, EligibleOwns(init), o);
      assert EligibleOwns(owns) == if Eligible(o) then EligibleOwns(init) + [o] else EligibleOwns(init);
      assert forall i :: 0 <= i < |init| ==> owns[i] == init[i];
      if Eligible(o) { at := at + [|init|]; }
    }
  }

  /** The positions of the named mappings that have a dialer. */
  ghost function Dialing(owns: seq<Node>): (r: set<nat>) {
    set i: nat | i < |owns| && DialsItself(owns[i])
  }

  ghost predicate DialsItself(own: Node) {
    own.kind == Mapping && GetField(own, "name") != "" && GetField(own, "dialer-proxy") != ""
  }

  /** The skipped count is their number. */
  lemma {:induction false} SkippedExactly(owns: seq<Node>)
    ensures SkippedOwns(owns) == |Dialing(owns)|
  {
    hide GetField;
    if owns == [] {
      assert Dialing(owns) == {};
    } else {
      var init, n := owns[..|owns| - 1], |owns| - 1;
      SkippedExactly(init);
      assert HasDialer(owns[n]) <==> DialsItself(owns[n]);
      DialingStep(owns, n);
    }
  }

  lemma DialingStep(owns: seq<Node>, n: nat)
    requires n + 1 == |owns|
    ensures |Dialing(owns)| == |Dialing(owns[..n])| + if DialsItself(owns[n]) then 1 else 0
  {
    hide DialsItself;
    var init := owns[..n];
    forall i: nat ensures i in Dialing(owns) <==> i in Dialing(init) || (i == n && DialsItself(owns[n])) {
      if i < n { assert owns[i] == init[i]; }
    }
    assert Dialing(owns) == if DialsItself(owns[n]) then Dialing(init) + {n} else Dialing(init);
  }

  /** `bare` is `s` without one leading underscore. */
  ghost predicate Bare(s: string, bare: string) { s == "_" + bare || (s == bare && (s == "" || s[0] != '_')) }

  lemma StrippedIsBare(s: string, bare: string)
    ensures StripUnderscore(s) == bare <==> Bare(s, bare)
  {
    if s != "" && s[0] == '_' { assert s == "_" + s[1..]; }
    if s == "_" + bare { assert s[1..] == bare; }
  }

  /** Copy `j` in full: its name is `via_`, the tag, two underscores and the own name, both without a leading
      underscore; it dials through the selector or its target; all else is the own proxy's. */
  lemma CopyExactly(own: Node, targets: seq<string>, selector: string, j: nat, name: string, tag: string)
    requires own.kind == Mapping && Paired(own) && j <= |targets| && Bare(Name(own), name)
    requires if j == 0 then tag == "AUTO" else Bare(targets[j - 1], tag)
    ensures var c := CopyAt(own, targets, selector, j);
            && Name(c) == "via_" + tag + "__" + name
            && GetField(c, "dialer-proxy") == (if j == 0 then selector else targets[j - 1])
            && c.kind == Mapping
            && forall key :: key != "name" && key != "dialer-proxy" ==> GetNode(c, key) == GetNode(own, key)
  {
    hide GetNode, GetField;
    StrippedIsBare(Name(own), name);
    var dialer := if j == 0 then selector else targets[j - 1];
    if j > 0 { StrippedIsBare(targets[j - 1], tag); }
    assert CopyAt(own, targets, selector, j) == Copy(own, ViaName(tag, name), dialer);
    CopyLaw(own, ViaName(tag, name), dialer, "type");
    forall key { CopyLaw(own, ViaName(tag, name), dialer, key); }
  }

  /** Where copy `j` of eligible proxy `i` lands. */
  function Slot(i: nat, targets: seq<string>, j: nat): (k: nat) { i * (1 + |targets|) + j }

  /** The copies fill the grid of eligible proxies and dialer choices, proxy by proxy. */
  ghost predicate CopyGrid(cs: seq<Node>, es: seq<Node>, targets: seq<string>, selector: string) {
    && |cs| == |es| * (1 + |targets|)
    && (forall i: nat, j: nat :: i < |es| && j <= |targets| ==>
         Slot(i, targets, j) < |cs| && cs[Slot(i, targets, j)] == CopyAt(es[i], targets, selector, j))
    && forall k :: 0 <= k < |cs| ==> SlotExists(k, es, targets)
  }

  ghost predicate SlotExists(k: int, es: seq<Node>, targets: seq<string>) {
    exists i: nat, j: nat :: i < |es| && j <= |targets| && k == Slot(i, targets, j)
  }

  lemma GridStep(cs0: seq<Node>, es0: seq<Node>, o: Node, targets: seq<string>, selector: string)
    requires CopyGrid(cs0, es0, targets, selector)
    ensures CopyGrid(cs0 + CopiesOf(o, targets, selector), es0 + [o], targets, selector)
  {
    var block, w := CopiesOf(o, targets, selector), 1 + |targets|;
    var cs, es := cs0 + block, es0 + [o];
    assert |cs| == |es| * w;
    forall i: nat, j: nat | i < |es| && j <= |targets|
      ensures Slot(i, targets, j) < |cs| && cs[Slot(i, targets, j)] == CopyAt(es[i], targets, selector, j)
    {
      if i < |es0| { assert es[i] == es0[i]; } else { assert Slot(i, targets, j) == |cs0| + j; }
    }
    forall k | 0 <= k < |cs| ensures SlotExists(k, es, targets) {
      if k < |cs0| { assert SlotExists(k, es0, targets); } else { assert k == Slot(|es0|, targets, k - |cs0|); }
    }
  }

  /** Exactly (eligible own proxies) x (1 + targets) copies, laid out proxy by proxy. */
  lemma {:induction false} CopiesLaw(owns: seq<Node>, targets: seq<string>, selector: string)
    ensures CopyGrid(Copies(owns, targets, selector), EligibleOwns(owns), targets, selector)
  {
    if owns == [] {
      assert |Copies(owns, targets, selector)| == 0 == |EligibleOwns(owns)|;
    } else {
      var init, o := owns[..|owns| - 1], owns[|owns| - 1];
      CopiesLaw(init, targets, selector);
      if Eligible(o) {
        GridStep(Copies(init, targets, selector), EligibleOwns(init), o, targets, selector);
        assert EligibleOwns(owns) == EligibleOwns(init) + [o];
        assert Copies(owns, targets, selector) == Copies(init, targets, selector) + CopiesOf(o, targets, selector);
      } else {
        assert EligibleOwns(owns) == EligibleOwns(init)
               && Copies(owns, targets, selector) == Copies(init, targets, selector);
      }
    }
  }

  /** A copy differs from its own proxy in nothing but `name` and `dialer-proxy`. */
  lemma CopyLaw(own: Node, name: string, dialer: string, key: string)
    requires own.kind == Mapping && Paired(own)
    ensures Name(Copy(own, name, dialer)) == name
    ensures GetField(Copy(own, name, dialer), "dialer-proxy") == dialer
    ensures key != "name" && key != "dialer-proxy" ==> GetNode(Copy(own, name, dialer), key) == GetNode(own, key)
    ensures Copy(own, name, dialer).kind == Mapping && Paired(Copy(own, name, dialer))
  {
    var c1 := SetValue(own, "name", StrNode(name));
    SetValueSame(own, "name", StrNode(name));
    SetValueSame(c1, "dialer-proxy", StrNode(dialer));
    SetValueOther(c1, "dialer-proxy", StrNode(dialer), "name");
    if key != "name" && key != "dialer-proxy" {
      SetValueOther(own, "name", StrNode(name), key);
      SetValueOther(c1, "dialer-proxy", StrNode(dialer), key);
    }
  }

  /** A tag that `__` cannot be confused with: no double underscore, none at the end. */
  ghost predicate CleanTag(tag: string) {
    && (tag == "" || tag[|tag| - 1] != '_')
    && forall i :: 0 <= i < |tag| - 1 ==> !(tag[i] == '_' && tag[i + 1] == '_')
  }

  ghost predicate BreakAt(s: string, i: nat) { i + 1 < |s| && s[i] == '_' && s[i + 1] == '_' }

  lemma TagEndsAtFirstBreak(tag: string, own: string)
    requires CleanTag(tag)
    ensures BreakAt(tag + "__" + own, |tag|)
    ensures forall i: nat :: i < |tag| ==> !BreakAt(tag + "__" + own, i)
  {
    var s := tag + "__" + own;
    assert s[|tag|] == '_' && s[|tag| + 1] == '_';
    forall i: nat | i < |tag| ensures !BreakAt(s, i) {
      assert s[i] == tag[i];
      assert i + 1 < |tag| ==> s[i + 1] == tag[i + 1];
    }
  }

  /** Copy names determine the tag and the own proxy. */
  lemma ViaNameInjective(t1: string, o1: string, t2: string, o2: string)
    requires CleanTag(t1) && CleanTag(t2) && ViaName(t1, o1) == ViaName(t2, o2)
    ensures t1 == t2 && o1 == o2
  {
    var s1, s2 := t1 + "__" + o1, t2 + "__" + o2;
    assert s1 == ViaName(t1, o1)[4..] && s2 == ViaName(t2, o2)[4..];
    TagEndsAtFirstBreak(t1, o1);
    TagEndsAtFirstBreak(t2, o2);
    assert |t1| == |t2|;
    assert s1[..|t1|] == t1 && s2[..|t2|] == t2 && s1[|t1| + 2..] == o1 && s2[|t2| + 2..] == o2;
  }

  /** The tag of copy `j`. */
  function TagAt(targets: seq<string>, j: nat): (r: string)
    requires j <= |targets|
  {
    if j == 0 then "AUTO" else StripUnderscore(targets[j - 1])
  }

  ghost predicate CleanTargets(targets: seq<string>) {
    && (forall j :: 0 <= j <= |targets| ==> CleanTag(TagAt(targets, j)))
    && (forall i, j :: 0 <= i <= |targets| && 0 <= j <= |targets| && TagAt(targets, i) == TagAt(targets, j) ==> i == j)
  }

  /** With clean distinct tags and distinct own names all copy names are distinct. */
  lemma CopyNamesDistinct(e1: Node, e2: Node, targets: seq<string>, selector: string, j1: nat, j2: nat)
    requires CleanTargets(targets) && j1 <= |targets| && j2 <= |targets|
    requires Eligible(e1) && Eligible(e2) && Paired(e1) && Paired(e2)
    requires Name(CopyAt(e1, targets, selector, j1)) == Name(CopyAt(e2, targets, selector, j2))
    ensures j1 == j2 && StripUnderscore(Name(e1)) == StripUnderscore(Name(e2))
  {
    var p1, p2 := StripUnderscore(Name(e1)), StripUnderscore(Name(e2));
    CopyLaw(e1, ViaName(TagAt(targets, j1), p1), if j1 == 0 then selector else targets[j1 - 1], "type");
    CopyLaw(e2, ViaName(TagAt(targets, j2), p2), if j2 == 0 then selector else targets[j2 - 1], "type");
    ViaNameInjective(TagAt(targets, j1), p1, TagAt(targets, j2), p2);
  }

  /** A key of a generated group: letters only. */
  ghost predicate LetterKey(key: string) {
    key != "" && forall i :: 0 <= i < |key| ==> key[i] != '_'
  }

  lemma TagParts(stem: string, key: string)
    requires |stem| >= 2 && CleanTag(stem[..|stem| - 1]) && stem[|stem| - 1] == '_' && LetterKey(key)
    ensures CleanTag(stem + key)
  {
    var tag := stem + key;
    forall i | 0 <= i < |tag| - 1 ensures !(tag[i] == '_' && tag[i + 1] == '_') {
      if i + 1 < |stem| - 1 {
        assert stem[..|stem| - 1][i] == tag[i] && stem[..|stem| - 1][i + 1] == tag[i + 1];
      } else if i + 1 == |stem| - 1 {
        assert tag[i] == stem[..|stem| - 1][i];
      } else {
        assert tag[i + 1] == key[i + 1 - |stem|];
      }
    }
    assert tag[|tag| - 1] == key[|key| - 1];
  }

  lemma GeneratedTag(prefix: string, key: string)
    requires |prefix| >= 3 && prefix[0] == '_' && prefix[|prefix| - 1] == '_' && LetterKey(key)
    requires CleanTag(prefix[1..][..|prefix| - 2]) && prefix[1] != 'A'
    ensures StripUnderscore(prefix + key) == prefix[1..] + key
    ensures CleanTag(StripUnderscore(prefix + key)) && StripUnderscore(prefix + key) != "AUTO"
  {
    assert (prefix + key)[1..] == prefix[1..] + key;
    TagParts(prefix[1..], key);
    assert (prefix[1..] + key)[0] == prefix[1];
  }

  /** Every generated group name has a clean tag, and is a fan-out target. */
  lemma GeneratedTags(key: string)
    requires LetterKey(key)
    ensures forall prefix :: prefix in {REGION, LB_REGION, CONTINENT, LB_CONTINENT} ==>
      && IsTarget(prefix + key) && StripUnderscore(prefix + key) == prefix[1..] + key
      && CleanTag(StripUnderscore(prefix + key)) && StripUnderscore(prefix + key) != "AUTO"
  {
    forall prefix | prefix in {REGION, LB_REGION, CONTINENT, LB_CONTINENT}
      ensures && IsTarget(prefix + key) && StripUnderscore(prefix + key) == prefix[1..] + key
              && CleanTag(StripUnderscore(prefix + key)) && StripUnderscore(prefix + key) != "AUTO"
    {
      GeneratedTag(prefix, key);
    }
  }
}
