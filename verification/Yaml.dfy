/** YAML nodes as values: the tree a parsed document is, and the field accessors the merge
    layer reads and rewrites it with. A mapping's content alternates key and value nodes. */
module Yaml {
  datatype Option<+T> = None | Some(value: T)

  datatype Kind = Document | Sequence | Mapping | Scalar | Alias

  /** `head` is the head comment. Anchors, styles and positions are not modelled. */
  datatype Node = Node(kind: Kind, tag: string, value: string, head: string, content: seq<Node>)

  /** A mapping node's content comes in pairs, as the parser builds it. */
  predicate Paired(n: Node) {
    n.kind == Mapping ==> |n.content| % 2 == 0
  }

  /** Position of the first key equal to `key` at or after `i`, or `|c|`. */
  function FindKey(c: seq<Node>, key: string, i: nat): (r: nat)
    ensures r == |c| || (i <= r && r + 1 < |c| && r % 2 == i % 2 && c[r].value == key)
    decreases |c| - i
  {
    if i + 1 >= |c| then |c|
    else if c[i].value == key then i
    else FindKey(c, key, i + 2)
  }

  /** Position of the first key equal to `key` whose value is a scalar, or `|c|`. */
  function FindScalar(c: seq<Node>, key: string, i: nat): (r: nat)
    ensures r == |c| || (i <= r && r + 1 < |c| && r % 2 == i % 2 && c[r].value == key && c[r + 1].kind == Scalar)
    decreases |c| - i
  {
    if i + 1 >= |c| then |c|
    else if c[i].value == key && c[i + 1].kind == Scalar then i
    else FindScalar(c, key, i + 2)
  }

  /** `getMappingField` */
  function GetField(n: Node, key: string): (v: string)
  {
    if n.kind != Mapping then "" else
      var r := FindScalar(n.content, key, 0);
      if r == |n.content| then "" else n.content[r + 1].value
  }

  /** `getMappingNode` */
  function GetNode(n: Node, key: string): (v: Option<Node>)
  {
    if n.kind != Mapping then None else
      var r := FindKey(n.content, key, 0);
      if r == |n.content| then None else Some(n.content[r + 1])
  }

  /** `setMappingField` */
  function SetField(n: Node, key: string, value: string): (m: Node)
  {
    if n.kind != Mapping then n else
      var r := FindKey(n.content, key, 0);
      if r == |n.content| then n
      else n.(content := n.content[r + 1 := n.content[r + 1].(value := value, tag := "!!str")])
  }

  function StrNode(v: string): (n: Node) { Node(Scalar, "!!str", v, "", []) }

  /** `setMappingValue` */
  function SetValue(n: Node, key: string, value: Node): (m: Node)
  {
    if n.kind != Mapping then n else
      var r := FindKey(n.content, key, 0);
      if r == |n.content| then n.(content := n.content + [StrNode(key), value])
      else n.(content := n.content[r + 1 := value])
  }

  function ScalarValues(c: seq<Node>): (r: seq<string>)
  {
    if c == [] then []
    else
      var last := c[|c| - 1];
      ScalarValues(c[..|c| - 1]) + (if last.kind == Scalar then [last.value] else [])
  }

  /** `mappingMembers` */
  function MembersOf(n: Node, key: string): (r: seq<string>)
  {
    match GetNode(n, key)
    case None => []
    case Some(s) => if s.kind == Sequence then ScalarValues(s.content) else []
  }

  function StrNodes(ms: seq<string>): (r: seq<Node>) { seq(|ms|, i requires 0 <= i < |ms| => StrNode(ms[i])) }

  function MemberList(ms: seq<string>): (n: Node) { Node(Sequence, "!!seq", "", "", StrNodes(ms)) }

  /** `setMappingMembers` */
  function SetMembersOf(n: Node, key: string, ms: seq<string>): (m: Node)
  {
    SetValue(n, key, MemberList(ms))
  }

  function Name(n: Node): (v: string) { GetField(n, "name") }

  function Members(n: Node): (r: seq<string>) { MembersOf(n, "proxies") }

  function SetMembers(n: Node, ms: seq<string>): (m: Node) { SetMembersOf(n, "proxies", ms) }

  function SetName(n: Node, v: string): (m: Node) { SetField(n, "name", v) }

  /** `findChildSequence` and `findChildMapping`: the first value under `key` of the wanted kind. */
  function FindKind(c: seq<Node>, key: string, kind: Kind, i: nat): (r: Option<Node>)
    ensures r.Some? ==> r.value.kind == kind
    decreases |c| - i
  {
    if i + 1 >= |c| then None
    else if c[i].value == key && c[i + 1].kind == kind then Some(c[i + 1])
    else FindKind(c, key, kind, i + 2)
  }

  function ChildOfKind(root: Node, key: string, kind: Kind): (r: Option<Node>)
    ensures r.Some? ==> r.value.kind == kind
  {
    if root.kind != Mapping then None else FindKind(root.content, key, kind, 0)
  }

  /** `docRoot` */
  function DocRoot(n: Node): (r: Node)
  {
    if n.kind == Document && n.content != [] then n.content[0] else n
  }

  /** Writing the field really writes what reading it returns: the first value under the key
      is a scalar. A repeated key whose first value is not one breaks this. */
  predicate Settable(n: Node, key: string)
  {
    GetField(n, key) != "" ==> GetNode(n, key).Some? && GetNode(n, key).value.kind == Scalar
  }

  // ----- which pair is found

  /** Pair `p` has the key, with a value of the kind. */
  ghost predicate KindAt(c: seq<Node>, key: string, kind: Kind, p: nat) {
    2 * p + 1 < |c| && c[2 * p].value == key && c[2 * p + 1].kind == kind
  }

  ghost predicate KeyAt(c: seq<Node>, key: string, p: nat) { 2 * p + 1 < |c| && c[2 * p].value == key }

  /** Pair `p` is the first one from `i` on that has the key. */
  ghost predicate FirstKey(c: seq<Node>, key: string, i: nat, p: nat) {
    KeyAt(c, key, p) && forall q: nat :: i <= q < p ==> !KeyAt(c, key, q)
  }

  ghost predicate FirstKind(c: seq<Node>, key: string, kind: Kind, i: nat, p: nat) {
    KindAt(c, key, kind, p) && forall q: nat :: i <= q < p ==> !KindAt(c, key, kind, q)
  }

  lemma {:induction false} FindKindFrom(c: seq<Node>, key: string, kind: Kind, i: nat)
    ensures var r := FindKind(c, key, kind, 2 * i);
            if r.None? then forall p: nat :: i <= p ==> !KindAt(c, key, kind, p)
            else exists p: nat :: FirstKind(c, key, kind, i, p) && i <= p && c[2 * p + 1] == r.value
    decreases |c| - 2 * i
  {
    if 2 * i + 1 < |c| {
      if KindAt(c, key, kind, i) {
        assert FirstKind(c, key, kind, i, i);
      } else {
        FindKindFrom(c, key, kind, i + 1);
        assert 2 * i + 2 == 2 * (i + 1);
        if FindKind(c, key, kind, 2 * i).Some? {
          var p: nat :| FirstKind(c, key, kind, i + 1, p) && i + 1 <= p
                        && c[2 * p + 1] == FindKind(c, key, kind, 2 * i + 2).value;
          assert FirstKind(c, key, kind, i, p);
        }
      }
    }
  }

  /** The child found is the value of the first pair with the key whose value is of the kind. */
  lemma ChildExactly(root: Node, key: string, kind: Kind)
    requires root.kind == Mapping
    ensures var r, c := ChildOfKind(root, key, kind), root.content;
            if r.None? then forall p: nat :: !KindAt(c, key, kind, p)
            else exists p: nat :: FirstKind(c, key, kind, 0, p) && c[2 * p + 1] == r.value
  {
    FindKindFrom(root.content, key, kind, 0);
  }

  lemma {:induction false} FindKeyFrom(c: seq<Node>, key: string, i: nat)
    ensures var r := FindKey(c, key, 2 * i);
            if r == |c| then forall p: nat :: i <= p ==> !KeyAt(c, key, p)
            else r % 2 == 0 && FirstKey(c, key, i, r / 2)
    decreases |c| - 2 * i
  {
    if 2 * i + 1 < |c| && c[2 * i].value != key {
      FindKeyFrom(c, key, i + 1);
      assert 2 * i + 2 == 2 * (i + 1);
    }
  }

  lemma {:induction false} FindScalarFrom(c: seq<Node>, key: string, i: nat)
    ensures var r := FindScalar(c, key, 2 * i);
            if r == |c| then forall p: nat :: i <= p ==> !KindAt(c, key, Scalar, p)
            else r % 2 == 0 && FirstKind(c, key, Scalar, i, r / 2)
    decreases |c| - 2 * i
  {
    if 2 * i + 1 < |c| && !KindAt(c, key, Scalar, i) {
      FindScalarFrom(c, key, i + 1);
      assert 2 * i + 2 == 2 * (i + 1);
    }
  }

  /** A field is the first scalar under the key, a value the first of any kind, and both may be absent. */
  lemma FieldExactly(n: Node, key: string)
    requires n.kind == Mapping
    ensures var c := n.content;
            if forall p: nat :: !KindAt(c, key, Scalar, p) then GetField(n, key) == ""
            else exists p: nat :: FirstKind(c, key, Scalar, 0, p) && c[2 * p + 1].value == GetField(n, key)
    ensures var c := n.content;
            if GetNode(n, key).None? then forall p: nat :: !KeyAt(c, key, p)
            else exists p: nat :: FirstKey(c, key, 0, p) && GetNode(n, key) == Some(c[2 * p + 1])
  {
    FindKeyFrom(n.content, key, 0);
    FindScalarFrom(n.content, key, 0);
    var r, s := FindKey(n.content, key, 0), FindScalar(n.content, key, 0);
    if r < |n.content| { assert FirstKey(n.content, key, 0, r / 2) && 2 * (r / 2) == r; }
    if s < |n.content| { assert FirstKind(n.content, key, Scalar, 0, s / 2) && 2 * (s / 2) == s; }
  }

  /** The scalars of a list, and nothing else of it. */
  lemma {:induction false} ScalarValuesExactly(c: seq<Node>, x: string)
    ensures x in ScalarValues(c) <==> exists i :: 0 <= i < |c| && c[i].kind == Scalar && c[i].value == x
  {
    if c != [] {
      var init := c[..|c| - 1];
      ScalarValuesExactly(init, x);
      assert forall i :: 0 <= i < |init| ==> init[i] == c[i];
    }
  }

  // ----- laws

  lemma {:induction false} FindScalarIsFindKey(c: seq<Node>, key: string, i: nat)
    requires FindKey(c, key, i) < |c| ==> c[FindKey(c, key, i) + 1].kind == Scalar
    ensures FindScalar(c, key, i) == FindKey(c, key, i)
    decreases |c| - i
  {
    if i + 1 < |c| && c[i].value != key { FindScalarIsFindKey(c, key, i + 2); }
  }

  /** Replacing a value by one of the same kind moves no key. */
  lemma {:induction false} FindAfterValueUpdate(c: seq<Node>, key: string, i: nat, p: nat, v: Node)
    requires i % 2 == 0 && p % 2 == 0 && p + 1 < |c|
    ensures FindKey(c[p + 1 := v], key, i) == FindKey(c, key, i)
    ensures v.kind == c[p + 1].kind || c[p].value != key ==> FindScalar(c[p + 1 := v], key, i) == FindScalar(c, key, i)
    decreases |c| - i
  {
    if i + 1 < |c| { FindAfterValueUpdate(c, key, i + 2, p, v); }
  }

  lemma {:induction false} FindAfterAppend(c: seq<Node>, key: string, i: nat, k: Node, v: Node)
    requires i % 2 == 0 && |c| % 2 == 0 && i <= |c|
    ensures FindKey(c + [k, v], key, i) ==
            if FindKey(c, key, i) < |c| then FindKey(c, key, i) else if k.value == key then |c| else |c| + 2
    ensures FindScalar(c + [k, v], key, i) ==
            if FindScalar(c, key, i) < |c| then FindScalar(c, key, i)
            else if k.value == key && v.kind == Scalar then |c| else |c| + 2
    decreases |c| - i
  {
    if i + 1 < |c| { FindAfterAppend(c, key, i + 2, k, v); }
  }

  /** Setting a settable field is read back. */
  lemma SetFieldSame(n: Node, key: string, v: string)
    requires GetField(n, key) != "" && Settable(n, key)
    ensures GetField(SetField(n, key, v), key) == v
    ensures Settable(SetField(n, key, v), key)
  {
    var c, p := n.content, FindKey(n.content, key, 0);
    var c' := c[p + 1 := c[p + 1].(value := v, tag := "!!str")];
    FindAfterValueUpdate(c, key, 0, p, c'[p + 1]);
    FindScalarIsFindKey(c', key, 0);
  }

  /** Setting a field changes no other field and no other value. */
  lemma SetFieldOther(n: Node, key: string, v: string, k: string)
    requires k != key
    ensures GetField(SetField(n, key, v), k) == GetField(n, k)
    ensures GetNode(SetField(n, key, v), k) == GetNode(n, k)
  {
    hide FindKey, FindScalar;
    if n.kind == Mapping {
      var c, p := n.content, FindKey(n.content, key, 0);
      if p < |c| {
        FindAfterValueUpdate(c, k, 0, p, c[p + 1].(value := v, tag := "!!str"));
      }
    }
  }

  /** Setting a value is read back. */
  lemma SetValueSame(n: Node, key: string, v: Node)
    requires n.kind == Mapping && Paired(n)
    ensures GetNode(SetValue(n, key, v), key) == Some(v)
    ensures v.kind == Scalar ==> GetField(SetValue(n, key, v), key) == v.value
    ensures SetValue(n, key, v).kind == Mapping && Paired(SetValue(n, key, v))
  {
    var c, p := n.content, FindKey(n.content, key, 0);
    var m := SetValue(n, key, v);
    if p < |c| {
      FindAfterValueUpdate(c, key, 0, p, v);
    } else {
      FindAfterAppend(c, key, 0, StrNode(key), v);
    }
    if v.kind == Scalar { FindScalarIsFindKey(m.content, key, 0); }
  }

  /** Every other key keeps its value. */
  lemma SetValueShape(n: Node, key: string, v: Node)
    ensures SetValue(n, key, v).(content := n.content) == n
  {
  }

  lemma SetValueOther(n: Node, key: string, v: Node, k: string)
    requires k != key && Paired(n)
    ensures GetField(SetValue(n, key, v), k) == GetField(n, k)
    ensures GetNode(SetValue(n, key, v), k) == GetNode(n, k)
  {
    hide FindKey, FindScalar;
    if n.kind == Mapping {
      var c, p := n.content, FindKey(n.content, key, 0);
      if p < |c| {
        FindAfterValueUpdate(c, k, 0, p, v);
      } else {
        FindAfterAppend(c, k, 0, StrNode(key), v);
      }
    }
  }

  lemma {:induction false} ScalarValuesOfStrNodes(ms: seq<string>)
    ensures ScalarValues(StrNodes(ms)) == ms
  {
    if ms != [] {
      var init := ms[..|ms| - 1];
      ScalarValuesOfStrNodes(init);
      assert StrNodes(ms)[..|ms| - 1] == StrNodes(init);
      assert ms == init + [ms[|ms| - 1]];
    }
  }

  /** A replaced member list is read back, and the group keeps every other field. */
  lemma SetMembersLaws(n: Node, ms: seq<string>)
    requires n.kind == Mapping && Paired(n)
    ensures Members(SetMembers(n, ms)) == ms
    ensures Name(SetMembers(n, ms)) == Name(n)
    ensures SetMembers(n, ms).kind == Mapping && Paired(SetMembers(n, ms))
  {
    SetValueSame(n, "proxies", MemberList(ms));
    SetValueOther(n, "proxies", MemberList(ms), "name");
    ScalarValuesOfStrNodes(ms);
  }

  /** A member list is written as a sequence of strings. */
  lemma SetMembersWrites(n: Node, ms: seq<string>)
    requires n.kind == Mapping && Paired(n)
    ensures var list := GetNode(SetMembers(n, ms), "proxies");
            && list.Some? && list.value.kind == Sequence && list.value.tag == "!!seq"
            && |list.value.content| == |ms|
            && forall k :: 0 <= k < |ms| ==> list.value.content[k] == Node(Scalar, "!!str", ms[k], "", [])
  {
    SetValueSame(n, "proxies", MemberList(ms));
  }

  /** Overwriting a field makes the value a string and leaves its place in the mapping. */
  lemma SetFieldWrites(n: Node, key: string, v: string)
    requires GetNode(n, key).Some?
    ensures GetNode(SetField(n, key, v), key) == Some(GetNode(n, key).value.(value := v, tag := "!!str"))
    ensures |SetField(n, key, v).content| == |n.content|
  {
    var c, p := n.content, FindKey(n.content, key, 0);
    FindAfterValueUpdate(c, key, 0, p, c[p + 1].(value := v, tag := "!!str"));
  }
}
