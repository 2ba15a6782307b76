/**
 * PatchOperationAddSafe: a data patch that, for every node the patch's path selects, copies nodes of
 * the patch's value fragment into it unless an "identical" node already exists there.
 *
 * The document is a store from node ids to child lists. Children that were in the document before
 * the patch ran are referred to by id; nodes the patch adds are deep copies (ImportNode(n, true)) of
 * fragment nodes, so they are kept as values. Path selection is given as the list of selected ids.
 */
module PatchOperationAddSafe {
  import opened Wrappers

  datatype Order = Append | Prepend

  /** A node of the value fragment (`value.node` and everything below it). */
  datatype XmlNode = XmlNode(name: string, childNodes: seq<XmlNode>)

  type NodeId = nat

  datatype Child = Existing(id: NodeId) | Imported(copy: XmlNode)

  class XmlDocument {
    var childNodes: map<NodeId, seq<Child>>

    constructor (childNodes: map<NodeId, seq<Child>>)
      ensures this.childNodes == childNodes
    {
      this.childNodes := childNodes;
    }

    /** target.AppendChild(OwnerDocument.ImportNode(node, true)) */
    method AppendChild(target: NodeId, node: XmlNode)
      requires target in childNodes
      modifies this
      ensures childNodes == old(childNodes)[target := old(childNodes)[target] + [Imported(node)]]
    {
      childNodes := childNodes[target := childNodes[target] + [Imported(node)]];
    }

    /** target.PrependChild(OwnerDocument.ImportNode(node, true)) */
    method PrependChild(target: NodeId, node: XmlNode)
      requires target in childNodes
      modifies this
      ensures childNodes == old(childNodes)[target := [Imported(node)] + old(childNodes)[target]]
    {
      childNodes := childNodes[target := [Imported(node)] + childNodes[target]];
    }
  }

  // ---------------------------------------------------------------- specification of the merge

  /** Deep copies of the given fragment nodes, in the same order. */
  function Imports(ns: seq<XmlNode>): (r: seq<Child>)
    ensures |r| == |ns|
    ensures forall i :: 0 <= i < |ns| ==> r[i] == Imported(ns[i])
  {
    if ns == [] then [] else Imports(ns[..|ns| - 1]) + [Imported(ns[|ns| - 1])]
  }

  /** The comparison the merge uses to look for an identical node; it accepts any pair. */
  predicate XmlNodesEqual(a: Child, b: Option<XmlNode>)
    ensures XmlNodesEqual(a, b)
  {
    true
  }

  /** Whether some child of the target is "identical" to `parent`. */
  predicate IdenticalNodeExists(existing: seq<Child>, parent: Option<XmlNode>) {
    exists j :: 0 <= j < |existing| && XmlNodesEqual(existing[j], parent)
  }

  /** AppendOrPrependNode: copies of `node`'s children go to the end in order, or to the front in order. */
  function AddChildren(existing: seq<Child>, node: XmlNode, order: Order): seq<Child> {
    match order
    case Append => existing + Imports(node.childNodes)
    case Prepend => Imports(node.childNodes) + existing
  }

  /** AppendOrPrependNode applied to each of `nodes` in turn. */
  function Grow(existing: seq<Child>, nodes: seq<XmlNode>, order: Order): seq<Child> {
    if nodes == [] then existing
    else AddChildren(Grow(existing, nodes[..|nodes| - 1], order), nodes[|nodes| - 1], order)
  }

  /** ConditionallyApplyParent: the children of the parent's children are added unless an identical node exists. */
  function ParentStep(existing: seq<Child>, parent: Option<XmlNode>, childOrder: Order): seq<Child> {
    if IdenticalNodeExists(existing, parent) || parent.None? then existing
    else Grow(existing, parent.value.childNodes, childOrder)
  }

  /** ConditionallyApplyParent applied to each of `parents` in turn. */
  function ApplyParents(existing: seq<Child>, parents: seq<Option<XmlNode>>, childOrder: Order): seq<Child> {
    if parents == [] then existing
    else ParentStep(ApplyParents(existing, parents[..|parents| - 1], childOrder), parents[|parents| - 1], childOrder)
  }

  /** XmlNodeList indexing: the item, or null past the end. */
  function ItemOrNull(ns: seq<XmlNode>, i: int): (r: Option<XmlNode>)
    ensures r.Some? <==> 0 <= i < |ns|
    ensures r.Some? ==> r.value == ns[i]
  {
    if 0 <= i < |ns| then Some(ns[i]) else None
  }

  /**
   * The parents handed to ConditionallyApplyParent for one target: with Append, every child of the
   * fragment in order; with Prepend, fragment children indexed by the target's own child count,
   * from that count minus one down to zero.
   */
  function ParentSequence(existing: seq<Child>, value: XmlNode, parentOrder: Order): seq<Option<XmlNode>> {
    match parentOrder
    case Append => seq(|value.childNodes|, i requires 0 <= i < |value.childNodes| => Some(value.childNodes[i]))
    case Prepend => seq(|existing|, j requires 0 <= j < |existing| => ItemOrNull(value.childNodes, |existing| - 1 - j))
  }

  /** What one selected target's child list becomes. */
  function MergeTarget(existing: seq<Child>, value: XmlNode, parentOrder: Order, childOrder: Order): seq<Child> {
    ApplyParents(existing, ParentSequence(existing, value, parentOrder), childOrder)
  }

  /** What the whole document becomes when the selected targets are merged one after the other. */
  function ApplyAll(m: map<NodeId, seq<Child>>, selected: seq<NodeId>, value: XmlNode, parentOrder: Order, childOrder: Order)
    : (r: map<NodeId, seq<Child>>)
    requires forall t :: t in selected ==> t in m
    ensures r.Keys == m.Keys
  {
    if selected == [] then m
    else
      var prev := ApplyAll(m, selected[..|selected| - 1], value, parentOrder, childOrder);
      var t := selected[|selected| - 1];
      prev[t := MergeTarget(prev[t], value, parentOrder, childOrder)]
  }

  /** Grandchildren reached through `nodes`: the children of each node, concatenated in order. */
  function Flatten(nodes: seq<XmlNode>): seq<XmlNode> {
    if nodes == [] then [] else Flatten(nodes[..|nodes| - 1]) + nodes[|nodes| - 1].childNodes
  }

  /** The same grandchildren with the groups taken last node first, each group still in order. */
  function FlattenReversed(nodes: seq<XmlNode>): seq<XmlNode> {
    if nodes == [] then [] else nodes[|nodes| - 1].childNodes + FlattenReversed(nodes[..|nodes| - 1])
  }

  /** The index of the first fragment child that has at least one grandchild. */
  function FirstWithGrandchildren(vs: seq<XmlNode>): (k: Option<nat>)
    ensures k.Some? ==> k.value < |vs| && Flatten(vs[k.value].childNodes) != []
    ensures k.Some? ==> forall j :: 0 <= j < k.value ==> Flatten(vs[j].childNodes) == []
    ensures k.None? <==> forall j :: 0 <= j < |vs| ==> Flatten(vs[j].childNodes) == []
  {
    if vs == [] then None
    else match FirstWithGrandchildren(vs[..|vs| - 1])
      case Some(k) => Some(k)
      case None => if Flatten(vs[|vs| - 1].childNodes) != [] then Some(|vs| - 1) else None
  }

  // ---------------------------------------------------------------- lemmas about the merge

  /** Because the comparison accepts everything, an "identical" node exists exactly when the target has any child. */
  lemma IdenticalIffNonEmpty(existing: seq<Child>, parent: Option<XmlNode>)
    ensures IdenticalNodeExists(existing, parent) <==> |existing| > 0
  {
    if |existing| > 0 {
      assert XmlNodesEqual(existing[0], parent);
    }
  }

  /** Appending: the copies of the grandchildren go after the existing children, in document order. */
  lemma {:induction false} GrowAppend(existing: seq<Child>, nodes: seq<XmlNode>)
    ensures Grow(existing, nodes, Append) == existing + Imports(Flatten(nodes))
  {
    if nodes != [] {
      var init := nodes[..|nodes| - 1];
      var last := nodes[|nodes| - 1];
      GrowAppend(existing, init);
      ImportsConcat(Flatten(init), last.childNodes);
    }
  }

  /** Prepending: the copies go before the existing children, each group in order, later groups first. */
  lemma {:induction false} GrowPrepend(existing: seq<Child>, nodes: seq<XmlNode>)
    ensures Grow(existing, nodes, Prepend) == Imports(FlattenReversed(nodes)) + existing
  {
    if nodes != [] {
      var init := nodes[..|nodes| - 1];
      var last := nodes[|nodes| - 1];
      GrowPrepend(existing, init);
      ImportsConcat(last.childNodes, FlattenReversed(init));
    }
  }

  lemma ImportsConcat(a: seq<XmlNode>, b: seq<XmlNode>)
    ensures Imports(a + b) == Imports(a) + Imports(b)
  {
  }

  /** The append loop's step: one more copy at the end. */
  lemma ImportsSnoc(start: seq<Child>, kids: seq<XmlNode>, k: nat)
    requires k < |kids|
    ensures start + Imports(kids[..k + 1]) == start + Imports(kids[..k]) + [Imported(kids[k])]
  {
    assert kids[..k + 1][..k] == kids[..k];
  }

  /** The prepend loop's step: one more copy at the front. */
  lemma ImportsCons(start: seq<Child>, kids: seq<XmlNode>, num: nat)
    requires num < |kids|
    ensures Imports(kids[num..]) + start == [Imported(kids[num])] + (Imports(kids[num + 1..]) + start)
  {
    ImportsConcat([kids[num]], kids[num + 1..]);
    assert [kids[num]] + kids[num + 1..] == kids[num..];
  }

  /** Either order adds exactly one copy per grandchild. */
  lemma GrowLength(existing: seq<Child>, nodes: seq<XmlNode>, order: Order)
    ensures |Grow(existing, nodes, order)| == |existing| + |Flatten(nodes)|
  {
    if order == Append {
      GrowAppend(existing, nodes);
    } else {
      GrowPrepend(existing, nodes);
      FlattenReversedLength(nodes);
    }
  }

  lemma {:induction false} FlattenReversedLength(nodes: seq<XmlNode>)
    ensures |FlattenReversed(nodes)| == |Flatten(nodes)|
  {
    if nodes != [] {
      FlattenReversedLength(nodes[..|nodes| - 1]);
    }
  }

  /** A target that already has children is never changed by any later parent. */
  lemma {:induction false} ApplyParentsKeepsNonEmpty(existing: seq<Child>, parents: seq<Option<XmlNode>>, childOrder: Order)
    requires |existing| > 0
    ensures ApplyParents(existing, parents, childOrder) == existing
  {
    if parents != [] {
      ApplyParentsKeepsNonEmpty(existing, parents[..|parents| - 1], childOrder);
      IdenticalIffNonEmpty(existing, parents[|parents| - 1]);
    }
  }

  /** Nodes are only ever added to a target that has no children when the patch reaches it. */
  lemma MergeOnlyFillsEmpty(existing: seq<Child>, value: XmlNode, parentOrder: Order, childOrder: Order)
    requires |existing| > 0
    ensures MergeTarget(existing, value, parentOrder, childOrder) == existing
  {
    ApplyParentsKeepsNonEmpty(existing, ParentSequence(existing, value, parentOrder), childOrder);
  }

  /**
   * With the Prepend parent order nothing is ever added: the loop runs once per existing child of the
   * target, so it does not run on an empty target, and on a non-empty one every parent finds an
   * "identical" node.
   */
  lemma PrependParentOrderNeverAdds(existing: seq<Child>, value: XmlNode, childOrder: Order)
    ensures MergeTarget(existing, value, Prepend, childOrder) == existing
  {
    if |existing| > 0 {
      MergeOnlyFillsEmpty(existing, value, Prepend, childOrder);
    } else {
      assert ParentSequence(existing, value, Prepend) == [];
    }
  }

  /** Taking one more parent applies one more ConditionallyApplyParent step. */
  lemma ApplyParentsSnoc(existing: seq<Child>, parents: seq<Option<XmlNode>>, k: nat, childOrder: Order)
    requires k < |parents|
    ensures ApplyParents(existing, parents[..k + 1], childOrder)
            == ParentStep(ApplyParents(existing, parents[..k], childOrder), parents[k], childOrder)
  {
    assert parents[..k + 1][..k] == parents[..k];
  }

  /** What the parents of an initially empty target add: the grandchildren of the first productive parent. */
  function AddedToEmpty(vs: seq<XmlNode>, childOrder: Order): seq<Child> {
    match FirstWithGrandchildren(vs)
    case None => []
    case Some(k) => Grow([], vs[k].childNodes, childOrder)
  }

  lemma {:induction false} ApplyParentsOnEmpty(vs: seq<XmlNode>, childOrder: Order)
    ensures ApplyParents([], seq(|vs|, i requires 0 <= i < |vs| => Some(vs[i])), childOrder) == AddedToEmpty(vs, childOrder)
  {
    var ps := seq(|vs|, i requires 0 <= i < |vs| => Some(vs[i]));
    if vs != [] {
      var init := vs[..|vs| - 1];
      var last := vs[|vs| - 1];
      var psInit := seq(|init|, i requires 0 <= i < |init| => Some(init[i]));
      assert ps[..|ps| - 1] == psInit;
      ApplyParentsOnEmpty(init, childOrder);
      var prev := AddedToEmpty(init, childOrder);
      assert ApplyParents([], ps, childOrder) == ParentStep(prev, Some(last), childOrder);
      IdenticalIffNonEmpty(prev, Some(last));
      match FirstWithGrandchildren(init)
      case Some(k) =>
        GrowLength([], init[k].childNodes, childOrder);
        assert FirstWithGrandchildren(vs) == Some(k) && vs[k] == init[k];
        assert ParentStep(prev, Some(last), childOrder) == prev;
      case None =>
        GrowLength([], last.childNodes, childOrder);
        assert ParentStep(prev, Some(last), childOrder) == Grow([], last.childNodes, childOrder);
        if Flatten(last.childNodes) == [] {
          assert FirstWithGrandchildren(vs) == None;
          assert |Grow([], last.childNodes, childOrder)| == 0;
        } else {
          assert FirstWithGrandchildren(vs) == Some(|vs| - 1);
        }
    }
  }

  /**
   * With the Append parent order, an empty target receives copies of the grandchildren reached
   * through exactly one fragment child: the first one that has any (and nothing when none has any).
   * Later parents add nothing.
   */
  lemma AppendParentOrderOnEmpty(value: XmlNode, childOrder: Order)
    ensures MergeTarget([], value, Append, childOrder) == AddedToEmpty(value.childNodes, childOrder)
    ensures FirstWithGrandchildren(value.childNodes).None? ==> MergeTarget([], value, Append, childOrder) == []
  {
    var vs := value.childNodes;
    assert ParentSequence([], value, Append) == seq(|vs|, i requires 0 <= i < |vs| => Some(vs[i]));
    ApplyParentsOnEmpty(vs, childOrder);
  }

  /**
   * The copies themselves: appended children keep document order; prepended ones keep it within each
   * grandchild group, later groups first.
   */
  lemma AddedToEmptyCopies(vs: seq<XmlNode>, childOrder: Order, k: nat)
    requires FirstWithGrandchildren(vs) == Some(k)
    ensures childOrder == Append ==> AddedToEmpty(vs, childOrder) == Imports(Flatten(vs[k].childNodes))
    ensures childOrder == Prepend ==> AddedToEmpty(vs, childOrder) == Imports(FlattenReversed(vs[k].childNodes))
    ensures AddedToEmpty(vs, childOrder) != []
  {
    GrowAppend([], vs[k].childNodes);
    GrowPrepend([], vs[k].childNodes);
    GrowLength([], vs[k].childNodes, childOrder);
  }

  /**
   * Over the whole document: node ids are kept, a node that is not selected keeps its children, and a
   * selected node keeps its children unless it had none.
   */
  lemma {:induction false} ApplyAllOnlyFillsEmptyTargets(m: map<NodeId, seq<Child>>, selected: seq<NodeId>, value: XmlNode,
                                                         parentOrder: Order, childOrder: Order, id: NodeId)
    requires forall t :: t in selected ==> t in m
    requires id in m
    ensures id !in selected ==> ApplyAll(m, selected, value, parentOrder, childOrder)[id] == m[id]
    ensures m[id] != [] ==> ApplyAll(m, selected, value, parentOrder, childOrder)[id] == m[id]
    ensures parentOrder == Prepend ==> ApplyAll(m, selected, value, parentOrder, childOrder)[id] == m[id]
  {
    if selected != [] {
      var init := selected[..|selected| - 1];
      var t := selected[|selected| - 1];
      assert forall u :: u in init ==> u in selected;
      ApplyAllOnlyFillsEmptyTargets(m, init, value, parentOrder, childOrder, id);
      var prev := ApplyAll(m, init, value, parentOrder, childOrder);
      if t == id {
        if prev[id] != [] {
          MergeOnlyFillsEmpty(prev[id], value, parentOrder, childOrder);
        }
        if parentOrder == Prepend {
          PrependParentOrderNeverAdds(prev[id], value, childOrder);
        }
      }
    }
  }

  // ---------------------------------------------------------------- the patch operation

  class PatchOperationAddSafeOp {
    /** `value.node`: the fragment; each of its children is a parent whose grandchildren are copied. */
    const value: XmlNode
    const parentOrder: Order
    const childOrder: Order

    /** Both orders default to Append. */
    constructor Default(value: XmlNode)
      ensures this.value == value && parentOrder == Append && childOrder == Append
    {
      this.value := value;
      parentOrder, childOrder := Append, Append;
    }

    constructor (value: XmlNode, parentOrder: Order, childOrder: Order)
      ensures this.value == value && this.parentOrder == parentOrder && this.childOrder == childOrder
    {
      this.value := value;
      this.parentOrder, this.childOrder := parentOrder, childOrder;
    }

    method AppendOrPrependNode(doc: XmlDocument, target: NodeId, node: XmlNode, order: Order)
      requires target in doc.childNodes
      modifies doc
      ensures doc.childNodes == old(doc.childNodes)[target := AddChildren(old(doc.childNodes)[target], node, order)]
    {
      ghost var m0 := doc.childNodes;
      ghost var start := m0[target];
      var kids := node.childNodes;
      if order == Append {
        var k := 0;
        assert start + Imports(kids[..0]) == start;
        assert m0[target := start] == m0;
        while k < |kids|
          invariant 0 <= k <= |kids|
          invariant doc.childNodes == m0[target := start + Imports(kids[..k])]
        {
          doc.AppendChild(target, kids[k]);
          ImportsSnoc(start, kids, k);
          k := k + 1;
        }
        assert kids[..k] == kids;
      } else {
        var num := |kids| - 1;
        assert Imports(kids[num + 1..]) + start == start;
        assert m0[target := start] == m0;
        while num >= 0
          invariant -1 <= num < |kids|
          invariant doc.childNodes == m0[target := Imports(kids[num + 1..]) + start]
        {
          doc.PrependChild(target, kids[num]);
          ImportsCons(start, kids, num);
          num := num - 1;
        }
        assert kids[0..] == kids;
      }
    }

    method ConditionallyApplyParent(doc: XmlDocument, target: NodeId, parent: Option<XmlNode>)
      requires target in doc.childNodes
      requires parent.Some? || |doc.childNodes[target]| > 0
      modifies doc
      ensures doc.childNodes == old(doc.childNodes)[target := ParentStep(old(doc.childNodes)[target], parent, childOrder)]
    {
      var children := doc.childNodes[target];
      var identicalNodeExists := false;
      var j := 0;
      while j < |children|
        invariant 0 <= j <= |children|
        invariant identicalNodeExists <==> exists i :: 0 <= i < j && XmlNodesEqual(children[i], parent)
      {
        if XmlNodesEqual(children[j], parent) {
          identicalNodeExists := true;
        }
        j := j + 1;
      }
      if !identicalNodeExists {
        IdenticalIffNonEmpty(children, parent);
        var p := parent.value;
        var k := 0;
        while k < |p.childNodes|
          invariant 0 <= k <= |p.childNodes|
          invariant doc.childNodes == old(doc.childNodes)[target := Grow(children, p.childNodes[..k], childOrder)]
        {
          AppendOrPrependNode(doc, target, p.childNodes[k], childOrder);
          assert p.childNodes[..k + 1][..k] == p.childNodes[..k];
          k := k + 1;
        }
        assert p.childNodes[..k] == p.childNodes;
      }
    }

    /** The body of ApplyWorker's loop for one selected node `cur`: hand each parent to ConditionallyApplyParent. */
    method ApplyToTarget(doc: XmlDocument, cur: NodeId)
      requires cur in doc.childNodes
      modifies doc
      ensures doc.childNodes == old(doc.childNodes)[cur := MergeTarget(old(doc.childNodes)[cur], value, parentOrder, childOrder)]
    {
      var node := value;
      ghost var before := doc.childNodes;
      ghost var existing := before[cur];
      ghost var parents := ParentSequence(existing, value, parentOrder);
      assert before[cur := existing] == before;
      if parentOrder == Append {
        var k := 0;
        while k < |node.childNodes|
          invariant 0 <= k <= |node.childNodes|
          invariant doc.childNodes == before[cur := ApplyParents(existing, parents[..k], childOrder)]
        {
          ApplyParentsSnoc(existing, parents, k, childOrder);
          ConditionallyApplyParent(doc, cur, Some(node.childNodes[k]));
          k := k + 1;
        }
        assert parents[..k] == parents;
      } else {
        var i := |doc.childNodes[cur]| - 1;
        while i >= 0
          invariant -1 <= i < |existing|
          invariant doc.childNodes == before[cur := ApplyParents(existing, parents[..|existing| - 1 - i], childOrder)]
        {
          ApplyParentsKeepsNonEmpty(existing, parents[..|existing| - 1 - i], childOrder);
          ApplyParentsSnoc(existing, parents, |existing| - 1 - i, childOrder);
          ConditionallyApplyParent(doc, cur, ItemOrNull(node.childNodes, i));
          i := i - 1;
        }
        assert parents[..|existing|] == parents;
      }
    }

    /** ApplyWorker: true exactly when the path selected at least one node. */
    method ApplyWorker(doc: XmlDocument, selected: seq<NodeId>) returns (result: bool)
      requires forall t :: t in selected ==> t in doc.childNodes
      modifies doc
      ensures result <==> |selected| > 0
      ensures doc.childNodes == ApplyAll(old(doc.childNodes), selected, value, parentOrder, childOrder)
    {
      result := false;
      var n := 0;
      while n < |selected|
        invariant 0 <= n <= |selected|
        invariant result <==> n > 0
        invariant doc.childNodes == ApplyAll(old(doc.childNodes), selected[..n], value, parentOrder, childOrder)
      {
        assert selected[..n + 1][..n] == selected[..n];
        result := true;
        var cur := selected[n];
        ApplyToTarget(doc, cur);
        n := n + 1;
      }
      assert selected[..n] == selected;
    }
  }
}
