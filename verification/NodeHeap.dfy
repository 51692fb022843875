/** YAML nodes on the heap, as `*yaml.Node`: an object per node, a `content` list that methods
    reassign, and the tree it stands for in the ghost field `view`. Cloning and the field
    setters are proved against the value-level functions of `Yaml`. */
module NodeHeap {
  import opened Yaml

  class YamlNode {
    var kind: Kind
    var tag: string
    var value: string
    var head: string
    var content: seq<YamlNode>
    /** The tree rooted here. */
    ghost var view: Node
    /** The node whose content holds this one; null for a root. */
    ghost var owner: YamlNode?
    /** The position of this node in its owner's content. */
    ghost var slot: nat

    constructor (kind: Kind, tag: string, value: string, head: string, content: seq<YamlNode>)
      requires forall i, j :: 0 <= i < j < |content| ==> content[i] != content[j]
      modifies content`owner, content`slot
      ensures this.kind == kind && this.tag == tag && this.value == value && this.head == head
      ensures this.content == content && this.owner == null
      ensures view == Node(kind, tag, value, head, Views(content))
      ensures forall i :: 0 <= i < |content| ==> content[i].owner == this && content[i].slot == i
    {
      this.kind, this.tag, this.value, this.head, this.content := kind, tag, value, head, content;
      this.view := Node(kind, tag, value, head, Views(content));
      this.owner := null;
      new;
      forall i | 0 <= i < |content| { content[i].owner := this; }
      forall i | 0 <= i < |content| { content[i].slot := i; }
    }
  }

  ghost function Views(ns: seq<YamlNode>): (r: seq<Node>)
    reads ns
    ensures |r| == |ns|
    ensures forall i :: 0 <= i < |ns| ==> r[i] == ns[i].view
  {
    seq(|ns|, i requires 0 <= i < |ns| reads ns => ns[i].view)
  }

  /** `n` agrees with the nodes its content names. */
  ghost predicate Linked(n: YamlNode, nodes: set<YamlNode>)
    requires n in nodes
    reads nodes
  {
    && (forall i :: 0 <= i < |n.content| ==> n.content[i] in nodes && n.content[i].owner == n && n.content[i].slot == i)
    && |n.view.content| == |n.content|
    && (forall i :: 0 <= i < |n.content| ==> n.view.content[i] == n.content[i].view)
    && n.view == Node(n.kind, n.tag, n.value, n.head, n.view.content)
  }

  /** A set of nodes closed under `content` that forms disjoint trees. */
  ghost predicate Trees(nodes: set<YamlNode>)
    reads nodes
  {
    forall n {:trigger Linked(n, nodes)} :: n in nodes ==> Linked(n, nodes)
  }

  /** The node at `i` of a linked node's content. */
  ghost predicate Held(n: YamlNode, nodes: set<YamlNode>, i: nat)
    reads n, nodes
  {
    && Trees(nodes) && i < |n.content| == |n.view.content| && n.content[i] in nodes
    && n.content[i].view == n.view.content[i]
  }

  /** The tree that the real fields spell out, node by node; in a set of trees it is the view. */
  ghost function Spelled(n: YamlNode, nodes: set<YamlNode>): (t: Node)
    requires Trees(nodes) && n in nodes
    reads nodes
    ensures t == n.view
    decreases n.view
  {
    assert Linked(n, nodes);
    var kids := seq(|n.content|, i requires 0 <= i < |n.content| && Held(n, nodes, i) reads n, nodes =>
                      Spelled(n.content[i], nodes));
    assert kids == n.view.content;
    Node(n.kind, n.tag, n.value, n.head, kids)
  }

  ghost function SpelledAll(ns: seq<YamlNode>, nodes: set<YamlNode>): (ts: seq<Node>)
    requires Trees(nodes) && forall n :: n in ns ==> n in nodes
    reads nodes
    ensures |ts| == |ns| && forall i :: 0 <= i < |ns| ==> ts[i] == ns[i].view
  {
    if ns == [] then [] else SpelledAll(ns[..|ns| - 1], nodes) + [Spelled(ns[|ns| - 1], nodes)]
  }

  /** A list of distinct roots among `nodes`. */
  ghost predicate Roots(ns: seq<YamlNode>, nodes: set<YamlNode>)
    reads ns
  {
    && (forall i :: 0 <= i < |ns| ==> ns[i] in nodes && ns[i].owner == null)
    && (forall i, j :: 0 <= i < j < |ns| ==> ns[i] != ns[j])
  }

  lemma NoStrings()
    ensures StrNodes([]) == []
  {
  }

  lemma StrNodesSnoc(ms: seq<string>, i: nat)
    requires i < |ms|
    ensures StrNodes(ms[..i + 1]) == StrNodes(ms[..i]) + [StrNode(ms[i])]
  {
  }

  lemma RootsMore(ns: seq<YamlNode>, nodes: set<YamlNode>, more: set<YamlNode>)
    requires Roots(ns, nodes) && nodes <= more
    ensures Roots(ns, more)
  {
  }

  lemma RootsConcat(ns: seq<YamlNode>, ms: seq<YamlNode>, nodes: set<YamlNode>)
    requires Roots(ns, nodes) && Roots(ms, nodes) && forall m :: m in ms ==> m !in ns
    ensures Roots(ns + ms, nodes) && Views(ns + ms) == Views(ns) + Views(ms)
  {
    var r := ns + ms;
    forall i, j | 0 <= i < j < |r| ensures r[i] != r[j] {
      if i < |ns| <= j { assert r[j] == ms[j - |ns|] && r[j] in ms && r[i] in ns; }
      else if i >= |ns| { assert r[i] == ms[i - |ns|] && r[j] == ms[j - |ns|]; }
    }
  }

  lemma RootsAppend(ns: seq<YamlNode>, n: YamlNode, nodes: set<YamlNode>)
    requires Roots(ns, nodes) && n in nodes && n.owner == null && n !in ns
    ensures Roots(ns + [n], nodes)
    ensures Views(ns + [n]) == Views(ns) + [n.view]
  {
  }

  lemma SliceStep<T>(s: seq<T>, i: nat)
    requires i < |s|
    ensures s[..i + 1] == s[..i] + [s[i]]
  {
  }

  /** The nodes allocated while one configuration is built. */
  class Arena {
    ghost var nodes: set<YamlNode>

    ghost predicate Valid()
      reads this, nodes
    {
      Trees(nodes)
    }

    constructor ()
      ensures Valid() && nodes == {}
    {
      nodes := {};
    }

    method NewNode(kind: Kind, tag: string, value: string, content: seq<YamlNode>, head: string) returns (n: YamlNode)
      requires Valid() && Roots(content, nodes)
      modifies this, content`owner, content`slot
      ensures Valid() && fresh(n) && nodes == old(nodes) + {n} && n.owner == null && n.content == content
      ensures n.view == Node(kind, tag, value, head, Views(content))
    {
      n := new YamlNode(kind, tag, value, head, content);
      ghost var before := nodes;
      nodes := nodes + {n};
      forall m | m in before ensures Linked(m, nodes) {
        assert old(Linked(m, before));
        assert forall i :: 0 <= i < |m.content| ==> m.content[i] !in content;
      }
    }

    method NewString(v: string) returns (n: YamlNode)
      requires Valid()
      modifies this
      ensures Valid() && fresh(n) && nodes == old(nodes) + {n} && n.owner == null
      ensures n.view == StrNode(v)
    {
      n := NewNode(Scalar, "!!str", v, [], "");
    }

    /** `cloneNode`: a deep copy made only of new nodes. */
    method Clone(n: YamlNode, ghost source: set<YamlNode>) returns (m: YamlNode)
      requires Valid() && Trees(source) && n in source
      modifies this
      ensures Valid() && old(nodes) <= nodes && fresh(nodes - old(nodes))
      ensures m in nodes && fresh(m) && m.owner == null && m.view == n.view
      ensures fresh(set k | k in m.content)
      decreases n.view
    {
      var kids: seq<YamlNode> := [];
      ghost var view := n.view;
      assert Linked(n, source);
      for i := 0 to |n.content|
        invariant Valid() && old(nodes) <= nodes && fresh(nodes - old(nodes))
        invariant Roots(kids, nodes) && fresh(set k | k in kids)
        invariant Views(kids) == view.content[..i]
      {
        assert Linked(n, source);
        var kid := Clone(n.content[i], source);
        RootsAppend(kids, kid, nodes);
        SliceStep(view.content, i);
        kids := kids + [kid];
      }
      m := NewNode(n.kind, n.tag, n.value, kids, n.head);
    }

    /** `setMappingField`: writes the value node in place. */
    method WriteField(n: YamlNode, key: string, value: string) returns (found: bool)
      requires Valid() && n in nodes && n.owner == null
      modifies n`view, n.content
      ensures Valid() && n.view == SetField(old(n.view), key, value)
      ensures n.owner == null && n.content == old(n.content)
      ensures forall m :: m in nodes && m != n && old(m.owner) == null ==> unchanged(m)
      ensures found == GetNode(old(n.view), key).Some?
    {
      var i := KeyPosition(n, key, nodes);
      assert Linked(n, nodes);
      found := n.kind == Mapping && i < |n.content|;
      if found { OverwriteScalar(n, i + 1, value); }
    }

    method OverwriteScalar(n: YamlNode, i: nat, value: string)
      requires Valid() && n in nodes && n.owner == null && i < |n.content|
      requires i < |n.view.content|
      modifies n`view, n.content
      ensures Valid()
      ensures n.owner == null && n.content == old(n.content)
      ensures forall m :: m in nodes && m != n && old(m.owner) == null ==> unchanged(m)
      ensures var was := old(n.view);
              n.view == was.(content := was.content[i := was.content[i].(value := value, tag := "!!str")])
    {
      assert Linked(n, nodes);
      var v := n.content[i];
      assert Linked(v, nodes);
      v.value, v.tag := value, "!!str";
      v.view := v.view.(value := value, tag := "!!str");
      n.view := n.view.(content := n.view.content[i := v.view]);
      forall m | m in nodes ensures Linked(m, nodes) {
        assert old(Linked(m, nodes));
        if m == v {
          assert forall k :: 0 <= k < |m.content| ==> m.content[k] != n && m.content[k].owner == v && m.content[k] != v;
        } else if m != n {
          assert forall k :: 0 <= k < |m.content| ==> m.content[k] != v && m.content[k] != n;
        }
      }
    }

    /** `setMappingValue`: replaces the value node, or appends a new pair. */
    method WriteValue(n: YamlNode, key: string, value: YamlNode)
      requires Valid() && n in nodes && n.owner == null
      requires value in nodes && value.owner == null && value != n
      modifies this, n, value`owner, value`slot
      ensures Valid() && old(nodes) <= nodes && fresh(nodes - old(nodes))
      ensures n.owner == null && n.view == SetValue(old(n.view), key, value.view)
    {
      var i := KeyPosition(n, key, nodes);
      assert Linked(n, nodes);
      if n.kind == Mapping {
        if i < |n.content| {
          ReplaceChild(n, i + 1, value);
        } else {
          var k := NewString(key);
          assert Linked(n, nodes);
          AppendChild(n, k);
          AppendChild(n, value);
        }
      }
    }

    method ReplaceChild(n: YamlNode, i: nat, value: YamlNode)
      requires Valid() && n in nodes && n.owner == null && i < |n.content| == |n.view.content|
      requires value in nodes && value.owner == null && value != n
      modifies n, value`owner, value`slot
      ensures Valid() && n.owner == null
      ensures n.view == old(n.view).(content := old(n.view).content[i := value.view])
    {
      assert Linked(n, nodes);
      value.owner, value.slot := n, i;
      n.content := n.content[i := value];
      n.view := n.view.(content := n.view.content[i := value.view]);
      forall m | m in nodes ensures Linked(m, nodes) {
        assert old(Linked(m, nodes));
        if m != n {
          assert forall k :: 0 <= k < |m.content| ==> m.content[k] != value && m.content[k] != n;
        }
      }
    }

    method AppendChild(n: YamlNode, value: YamlNode)
      requires Valid() && n in nodes && n.owner == null
      requires value in nodes && value.owner == null && value != n
      modifies n, value`owner, value`slot
      ensures Valid() && n.owner == null
      ensures n.view == old(n.view).(content := old(n.view).content + [value.view])
    {
      assert Linked(n, nodes);
      value.owner, value.slot := n, |n.content|;
      n.content := n.content + [value];
      n.view := n.view.(content := n.view.content + [value.view]);
      forall m | m in nodes ensures Linked(m, nodes) {
        assert old(Linked(m, nodes));
        if m != n {
          assert forall k :: 0 <= k < |m.content| ==> m.content[k] != value && m.content[k] != n;
        }
      }
    }

    method NewStringList(ms: seq<string>) returns (list: YamlNode)
      requires Valid()
      modifies this
      ensures Valid() && old(nodes) <= nodes && fresh(nodes - old(nodes))
      ensures list in nodes && fresh(list) && list.owner == null && list.view == MemberList(ms)
    {
      hide Trees, StrNodes;
      var kids: seq<YamlNode> := [];
      assert ms[..0] == [] && StrNodes([]) == [] by { NoStrings(); }
      for i := 0 to |ms|
        invariant Valid() && old(nodes) <= nodes && fresh(nodes - old(nodes))
        invariant Roots(kids, nodes) && fresh(set k | k in kids)
        invariant Views(kids) == StrNodes(ms[..i])
      {
        var kid := NewString(ms[i]);
        RootsAppend(kids, kid, nodes);
        kids := kids + [kid];
        StrNodesSnoc(ms, i);
      }
      assert ms[..|ms|] == ms;
      list := NewNode(Sequence, "!!seq", "", kids, "");
    }

    /** Overwrites a scalar that nothing holds yet. */
    method Relabel(n: YamlNode, value: string)
      requires Valid() && n in nodes && n.owner == null
      modifies n
      ensures Valid() && n.owner == null && n.view == old(n.view).(value := value, tag := "!!str")
    {
      assert Linked(n, nodes);
      n.value, n.tag := value, "!!str";
      n.view := n.view.(value := value, tag := "!!str");
      forall m | m in nodes ensures Linked(m, nodes) {
        assert old(Linked(m, nodes));
        assert forall k :: 0 <= k < |m.content| ==> m.content[k] != n;
      }
    }

    /** Gives up a root whose content another node is about to share. */
    ghost method Dissolve(n: YamlNode)
      requires Valid() && n in nodes && n.owner == null
      modifies this, n.content`owner
      ensures Valid() && nodes == old(nodes) - {n} && Roots(n.content, nodes)
    {
      assert Linked(n, nodes);
      forall i | 0 <= i < |n.content| { n.content[i].owner := null; }
      ghost var before := nodes;
      nodes := nodes - {n};
      forall m | m in nodes ensures Linked(m, nodes) {
        assert old(Linked(m, before));
        assert forall k :: 0 <= k < |m.content| ==> m.content[k].owner == m;
      }
    }

    /** `setMappingMembers` */
    method WriteMembers(n: YamlNode, key: string, ms: seq<string>)
      requires Valid() && n in nodes && n.owner == null
      modifies this, n
      ensures Valid() && old(nodes) <= nodes && fresh(nodes - old(nodes))
      ensures n.owner == null && n.view == SetMembersOf(old(n.view), key, ms)
    {
      var list := NewStringList(ms);
      WriteValue(n, key, list);
    }
  }

  /** The position of the pair under `key`, or the content's length. */
  method KeyPosition(n: YamlNode, key: string, ghost nodes: set<YamlNode>) returns (i: nat)
    requires Trees(nodes) && n in nodes
    ensures |n.content| == |n.view.content| && i == FindKey(n.view.content, key, 0)
  {
    assert Linked(n, nodes);
    i := 0;
    while i + 1 < |n.content| && n.content[i].value != key
      invariant FindKey(n.view.content, key, 0) == FindKey(n.view.content, key, i)
    {
      assert Linked(n.content[i], nodes);
      i := i + 2;
    }
    if i + 1 >= |n.content| {
      i := |n.content|;
    } else {
      assert Linked(n.content[i], nodes);
    }
  }

  /** `getMappingField` */
  method ReadField(n: YamlNode, key: string, ghost nodes: set<YamlNode>) returns (v: string)
    requires Trees(nodes) && n in nodes
    ensures v == GetField(n.view, key)
  {
    assert Linked(n, nodes);
    v := "";
    if n.kind != Mapping { return; }
    var i := 0;
    while i + 1 < |n.content| && !(n.content[i].value == key && n.content[i + 1].kind == Scalar)
      invariant FindScalar(n.view.content, key, 0) == FindScalar(n.view.content, key, i)
    {
      assert Linked(n.content[i], nodes) && Linked(n.content[i + 1], nodes);
      i := i + 2;
    }
    if i + 1 < |n.content| {
      assert Linked(n.content[i], nodes) && Linked(n.content[i + 1], nodes);
      v := n.content[i + 1].value;
    }
  }

  /** `mappingMembers` */
  method ReadMembers(n: YamlNode, key: string, ghost nodes: set<YamlNode>) returns (ms: seq<string>)
    requires Trees(nodes) && n in nodes
    ensures ms == MembersOf(n.view, key)
  {
    ms := [];
    var i := KeyPosition(n, key, nodes);
    assert Linked(n, nodes);
    if n.kind == Mapping && i < |n.content| {
      var list := n.content[i + 1];
      assert Linked(list, nodes);
      if list.kind == Sequence {
        ms := ReadScalars(list.content, nodes);
        assert Views(list.content) == list.view.content;
      }
    }
  }

  /** The values of the scalar nodes of a list, in order. */
  method ReadScalars(ns: seq<YamlNode>, ghost nodes: set<YamlNode>) returns (ms: seq<string>)
    requires Trees(nodes) && forall n :: n in ns ==> n in nodes
    ensures ms == ScalarValues(Views(ns))
  {
    ms := [];
    for k := 0 to |ns|
      invariant ms == ScalarValues(Views(ns)[..k])
    {
      assert Linked(ns[k], nodes);
      assert Views(ns)[..k + 1][..k] == Views(ns)[..k];
      if ns[k].kind == Scalar { ms := ms + [ns[k].value]; }
    }
    assert Views(ns)[..|ns|] == Views(ns);
  }
}
